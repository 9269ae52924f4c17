/**
 * Implied prices and 24-hour changes between two assets along a route of
 * quoted pairs.  The route search itself is outside the model: the route
 * (or its absence) is an input, as is whether the update engine has
 * finished initialising.
 */
module AssetQuoter {
  import opened Wrappers
  import opened DataModels
  import opened TextEx
  import Decimals

  /** One edge of a route: the pair key it follows and the price it was found with. */
  datatype RouteEdge = RouteEdge(route: string, price: real)

  // ------------------------------------------------------------- keys

  /** ReversePairString: "A-B" becomes "B-A"; a key without '-' throws. */
  function ReversePairString(pairString: string): Result<string>
  {
    match ParsePairString(pairString)
    case None => Failure("The pair string has no separator.")
    case Some(words) => Success(words[1] + "-" + words[0])
  }

  /** Reversing a key of two dash-free codes swaps them, and reversing twice gives it back. */
  lemma ReverseTwice(one: string, two: string)
    requires '-' !in one && '-' !in two
    ensures ReversePairString(one + "-" + two) == Success(two + "-" + one)
    ensures ReversePairString(ReversePairString(one + "-" + two).value) == Success(one + "-" + two)
  {
    ParseTwoCodes(one, two);
    ParseTwoCodes(two, one);
  }

  /** Reversing throws exactly when the key holds no '-'. */
  lemma ReverseThrows(pairString: string)
    ensures ReversePairString(pairString).Failure? <==> '-' !in pairString
  {
    ParsePairStringParts(pairString);
  }

  // ------------------------------------------------------------ price

  /** The product of the route's edge prices, taken as found (never inverted). */
  function RoutePrice(route: seq<RouteEdge>): real
  {
    if route == [] then 1.0 else RoutePrice(route[..|route| - 1]) * route[|route| - 1].price
  }

  /** The price along two routes joined end to end is the product of their prices. */
  lemma {:induction false} RoutePriceAppend(a: seq<RouteEdge>, b: seq<RouteEdge>)
    ensures RoutePrice(a + b) == RoutePrice(a) * RoutePrice(b)
    decreases |b|
  {
    if b == [] {
      assert a + b == a;
    } else {
      var b' := b[..|b| - 1];
      assert (a + b)[..|a + b| - 1] == a + b';
      RoutePriceAppend(a, b');
      var x, y, p := RoutePrice(a), RoutePrice(b'), b[|b| - 1].price;
      assert (x * y) * p == x * (y * p);
    }
  }

  /** FindPrice: nothing before initialisation or without a route; else the route price. */
  function FoundPrice(initialized: bool, route: Option<seq<RouteEdge>>): Option<real>
  {
    if !initialized || route.None? then None else Some(RoutePrice(route.value))
  }

  /** FindPrice's accumulator loop, `price *= pair.Price` over the route. */
  method FindPrice(initialized: bool, route: Option<seq<RouteEdge>>) returns (r: Option<real>)
    ensures r == FoundPrice(initialized, route)
  {
    if !initialized {
      return None;
    }
    if route.None? {
      return None;
    }
    var edges := route.value;
    var price := 1.0;
    var i := 0;
    while i < |edges|
      invariant 0 <= i <= |edges|
      invariant price == RoutePrice(edges[..i])
    {
      assert edges[..i + 1][..i] == edges[..i];
      price := price * edges[i].price;
      i := i + 1;
    }
    assert edges[..i] == edges;
    r := Some(price);
  }

  // ----------------------------------------------------------- change

  /** The fractional change of a quote, zero when it has no open price. */
  function PairChange(q: Quote): real
  {
    if q.priceStart == 0.0 then 0.0 else (q.priceFinish - q.priceStart) / q.priceStart
  }

  /**
   * The change along one edge: the change of its own quote, or the negated
   * change of the reversed key's quote when only that is quoted; neither
   * throws.
   */
  function EdgeChange(quotes: map<string, Quote>, edge: RouteEdge): Result<real>
  {
    if edge.route in quotes then Success(PairChange(quotes[edge.route]))
    else
      var reversed := ReversePairString(edge.route);
      if reversed.Failure? then Failure(reversed.error)
      else if reversed.value in quotes then Success(-PairChange(quotes[reversed.value]))
      else Failure("A quote for the route edge was not found.")
  }

  /** An edge between two dash-free codes quoted only the other way round gets the negated change. */
  lemma ReversedEdgeNegates(quotes: map<string, Quote>, one: string, two: string, price: real)
    requires '-' !in one && '-' !in two
    requires one + "-" + two !in quotes && two + "-" + one in quotes
    ensures EdgeChange(quotes, RouteEdge(one + "-" + two, price)) == Success(-PairChange(quotes[two + "-" + one]))
  {
    ReverseTwice(one, two);
  }

  /** An edge with neither orientation quoted throws. */
  lemma UnquotedEdgeThrows(quotes: map<string, Quote>, one: string, two: string, price: real)
    requires '-' !in one && '-' !in two
    requires one + "-" + two !in quotes && two + "-" + one !in quotes
    ensures EdgeChange(quotes, RouteEdge(one + "-" + two, price)).Failure?
  {
    ReverseTwice(one, two);
  }

  /** One factor more: the change so far times one plus the edge's change. */
  function Compose(change: real, edgeChange: real): real
  {
    change * (1.0 + edgeChange)
  }

  lemma ComposeScales(x: real, y: real, e: real)
    ensures Compose(x * y, e) == x * Compose(y, e)
  {
    assert (x * y) * (1.0 + e) == x * (y * (1.0 + e));
  }

  /** The per-edge changes of a route, in route order. */
  function EdgeChanges(quotes: map<string, Quote>, route: seq<RouteEdge>): (r: seq<Result<real>>)
    ensures |r| == |route|
    ensures forall i :: 0 <= i < |route| ==> r[i] == EdgeChange(quotes, route[i])
  {
    seq(|route|, i requires 0 <= i < |route| => EdgeChange(quotes, route[i]))
  }

  /** The product of (1 + change) over a list of edge changes, stopping at the first exception. */
  function ComposeAll(changes: seq<Result<real>>): Result<real>
  {
    if changes == [] then Success(1.0)
    else
      var prefix := ComposeAll(changes[..|changes| - 1]);
      var edge := changes[|changes| - 1];
      if prefix.Failure? then prefix
      else if edge.Failure? then edge
      else Success(Compose(prefix.value, edge.value))
  }

  /** The change factor of a route, or the exception of its first unquoted edge. */
  function ChangeProduct(quotes: map<string, Quote>, route: seq<RouteEdge>): Result<real>
  {
    ComposeAll(EdgeChanges(quotes, route))
  }

  /** Composing two lists of changes joined end to end multiplies their factors. */
  lemma {:induction false} ComposeAllAppend(a: seq<Result<real>>, b: seq<Result<real>>)
    requires ComposeAll(a).Success? && ComposeAll(b).Success?
    ensures ComposeAll(a + b).Success?
    ensures ComposeAll(a + b).value == ComposeAll(a).value * ComposeAll(b).value
    decreases |b|
  {
    if b == [] {
      assert a + b == a;
    } else {
      var b' := b[..|b| - 1];
      assert (a + b)[..|a + b| - 1] == a + b';
      assert (a + b)[|a + b| - 1] == b[|b| - 1];
      assert ComposeAll(b').Success? && b[|b| - 1].Success?;
      ComposeAllAppend(a, b');
      ComposeScales(ComposeAll(a).value, ComposeAll(b').value, b[|b| - 1].value);
    }
  }

  /** The change factors of two routes joined end to end multiply. */
  lemma ChangeProductAppend(quotes: map<string, Quote>, a: seq<RouteEdge>, b: seq<RouteEdge>)
    requires ChangeProduct(quotes, a).Success? && ChangeProduct(quotes, b).Success?
    ensures ChangeProduct(quotes, a + b).Success?
    ensures ChangeProduct(quotes, a + b).value == ChangeProduct(quotes, a).value * ChangeProduct(quotes, b).value
  {
    EdgeChangesAppend(quotes, a, b);
    ComposeAllAppend(EdgeChanges(quotes, a), EdgeChanges(quotes, b));
  }

  lemma EdgeChangesAppend(quotes: map<string, Quote>, a: seq<RouteEdge>, b: seq<RouteEdge>)
    ensures EdgeChanges(quotes, a + b) == EdgeChanges(quotes, a) + EdgeChanges(quotes, b)
  {
    var l, r := EdgeChanges(quotes, a + b), EdgeChanges(quotes, a) + EdgeChanges(quotes, b);
    forall i | 0 <= i < |a + b|
      ensures l[i] == r[i]
    {
      if i < |a| {
        assert (a + b)[i] == a[i];
      } else {
        assert (a + b)[i] == b[i - |a|];
      }
    }
  }

  /**
   * FindPriceChange: nothing before initialisation or without a route;
   * else the composed change minus one, rounded to two decimals, or the
   * exception of the first unquoted edge.
   */
  function FoundChange(initialized: bool, quotes: map<string, Quote>, route: Option<seq<RouteEdge>>): Result<Option<real>>
  {
    if !initialized || route.None? then Success(None)
    else match ChangeProduct(quotes, route.value)
      case Failure(e) => Failure(e)
      case Success(c) => Success(Some(Decimals.Round(c - 1.0, 2)))
  }

  /** A one-edge route quoted in its own orientation yields that pair's change, rounded. */
  lemma SingleEdgeChange(quotes: map<string, Quote>, edge: RouteEdge)
    requires edge.route in quotes
    ensures FoundChange(true, quotes, Some([edge])) == Success(Some(Decimals.Round(PairChange(quotes[edge.route]), 2)))
  {
    var changes := EdgeChanges(quotes, [edge]);
    assert changes[..0] == [];
    assert ComposeAll([]) == Success(1.0);
    var x := PairChange(quotes[edge.route]);
    assert changes[0].value == x;
    assert ComposeAll(changes).value == Compose(1.0, x);
    assert Compose(1.0, x) - 1.0 == x;
  }

  /** The body of FindPriceChange's loop: the edge's own quote, else the reversed one with the change negated. */
  method LookupEdgeChange(quotes: map<string, Quote>, pair: RouteEdge) returns (r: Result<real>)
    ensures r == EdgeChange(quotes, pair)
  {
    var isReversed := false;
    var quote: Quote;
    if pair.route in quotes {
      quote := quotes[pair.route];
    } else {
      isReversed := true;
      var reversed := ReversePairString(pair.route);
      if reversed.Failure? {
        return Failure(reversed.error);
      }
      if reversed.value in quotes {
        quote := quotes[reversed.value];
      } else {
        return Failure("A quote for the route edge was not found.");
      }
    }
    var pairChange := if quote.priceStart == 0.0 then 0.0 else (quote.priceFinish - quote.priceStart) / quote.priceStart;
    if isReversed {
      pairChange := -pairChange;
    }
    return Success(pairChange);
  }

  /** FindPriceChange's accumulator loop, `change *= 1 + pairChange` over the route. */
  method FindPriceChange(initialized: bool, quotes: map<string, Quote>, route: Option<seq<RouteEdge>>) returns (r: Result<Option<real>>)
    ensures r == FoundChange(initialized, quotes, route)
  {
    if !initialized {
      return Success(None);
    }
    if route.None? {
      return Success(None);
    }
    var edges := route.value;
    var change := 1.0;
    var i := 0;
    while i < |edges|
      invariant 0 <= i <= |edges|
      invariant ChangeProduct(quotes, edges[..i]).Success? && ChangeProduct(quotes, edges[..i]).value == change
    {
      assert EdgeChanges(quotes, edges[..i + 1])[..i] == EdgeChanges(quotes, edges[..i]);
      assert EdgeChanges(quotes, edges[..i + 1])[i] == EdgeChange(quotes, edges[i]);
      var pairChange := LookupEdgeChange(quotes, edges[i]);
      if pairChange.Failure? {
        ChangeFailureStays(quotes, edges, i + 1);
        return Failure(pairChange.error);
      }
      assert ChangeProduct(quotes, edges[..i + 1]).value == Compose(change, pairChange.value);
      change := change * (1.0 + pairChange.value);
      i := i + 1;
    }
    assert edges[..i] == edges;
    r := Success(Some(Decimals.Round(change - 1.0, 2)));
  }

  /** Once a prefix of the route throws, the whole route throws with the same error. */
  lemma {:induction false} ChangeFailureStays(quotes: map<string, Quote>, route: seq<RouteEdge>, n: nat)
    requires n <= |route| && ChangeProduct(quotes, route[..n]).Failure?
    ensures ChangeProduct(quotes, route) == ChangeProduct(quotes, route[..n])
    decreases |route| - n
  {
    if n < |route| {
      assert EdgeChanges(quotes, route[..n + 1])[..n] == EdgeChanges(quotes, route[..n]);
      ChangeFailureStays(quotes, route, n + 1);
    } else {
      assert route[..n] == route;
    }
  }

  // ---------------------------------------------------------- queries

  /**
   * Get: 1 when both codes of the key are the same asset, otherwise the
   * price along the route; a key without '-' throws.
   */
  function Get(pairString: string, initialized: bool, route: Option<seq<RouteEdge>>): Result<Option<real>>
  {
    match ParsePairString(pairString)
    case None => Failure("The pair string has no separator.")
    case Some(codes) => if codes[0] == codes[1] then Success(Some(1.0)) else Success(FoundPrice(initialized, route))
  }

  /** GetChange: 0 for the same asset on both sides, otherwise the change along the route. */
  function GetChange(codeOne: string, codeTwo: string, initialized: bool, quotes: map<string, Quote>, route: Option<seq<RouteEdge>>): Result<Option<real>>
  {
    match ParsePairString(codeOne + "-" + codeTwo)
    case None => Failure("The pair string has no separator.")
    case Some(codes) => if codes[0] == codes[1] then Success(Some(0.0)) else FoundChange(initialized, quotes, route)
  }

  /** The same asset on both sides gives price 1 and change 0 whatever the route and the quotes. */
  lemma SameAssetShortcut(code: string, initialized: bool, quotes: map<string, Quote>, route: Option<seq<RouteEdge>>)
    requires '-' !in code
    ensures Get(code + "-" + code, initialized, route) == Success(Some(1.0))
    ensures GetChange(code, code, initialized, quotes, route) == Success(Some(0.0))
  {
    ParseTwoCodes(code, code);
  }

  /** Between two different dash-free codes, the queries are the route's price and change. */
  lemma DistinctAssetsUseRoute(one: string, two: string, initialized: bool, quotes: map<string, Quote>, route: Option<seq<RouteEdge>>)
    requires '-' !in one && '-' !in two && one != two
    ensures Get(one + "-" + two, initialized, route) == Success(FoundPrice(initialized, route))
    ensures GetChange(one, two, initialized, quotes, route) == FoundChange(initialized, quotes, route)
    ensures !initialized || route.None? ==> Get(one + "-" + two, initialized, route) == Success(None)
  {
    ParseTwoCodes(one, two);
  }
}
