/**
 * The query string MakeGetRequest builds: `key=EscapeDataString(value)` per
 * entry, in the dictionary's enumeration order, joined by `&`. Keys are
 * written as they are; only values are escaped.
 */
module QueryString {
  import opened Wrappers
  import opened Strings
  import opened PercentEncoding

  /** The entries of the query dictionary in enumeration order. */
  type Query = seq<(string, string)>

  /** Keys the query syntax can carry back unambiguously: no `&` and no `=`. */
  predicate PlainKeys(q: Query) {
    forall i | 0 <= i < |q| :: '&' !in q[i].0 && '=' !in q[i].0
  }

  /** One entry, `key=escaped value`. */
  function Parameter(p: (string, string)): (r: string)
    ensures '&' !in p.0 ==> '&' !in r
  {
    p.0 + "=" + EscapeDataString(p.1)
  }

  /** The entries, each written as a parameter, in order. */
  function Parameters(q: Query): (r: seq<string>)
    ensures |r| == |q|
    ensures forall i | 0 <= i < |q| :: r[i] == Parameter(q[i])
  {
    if q == [] then [] else [Parameter(q[0])] + Parameters(q[1..])
  }

  /** string.Join("&", parameters): the separator between entries, none after the last. */
  function Join(q: Query): string {
    if |q| == 0 then ""
    else if |q| == 1 then Parameter(q[0])
    else Parameter(q[0]) + "&" + Join(q[1..])
  }

  /** A non-empty query of plain keys has exactly one `&` between neighbouring entries. */
  lemma {:induction false} SeparatorCount(q: Query)
    requires 0 < |q| && PlainKeys(q)
    ensures Count(Join(q), '&') == |q| - 1
  {
    if |q| > 1 {
      var p := Parameter(q[0]);
      CountConcat(p + "&", Join(q[1..]), '&');
      CountConcat(p, "&", '&');
      SeparatorCount(q[1..]);
    }
  }

  /** Splitting the query string on `&` gives back the parameters, in order. */
  lemma {:induction false} SplitJoin(q: Query)
    requires 0 < |q| && PlainKeys(q)
    ensures Split(Join(q), '&') == Parameters(q)
  {
    if |q| == 1 {
      SplitWhole(Parameter(q[0]), '&');
    } else {
      SplitAtSeparator(Parameter(q[0]), Join(q[1..]), '&');
      SplitJoin(q[1..]);
    }
  }

  /** Reads one parameter: the key up to the first `=`, the value percent-decoded. */
  function ParseParameter(p: string): Option<(string, string)> {
    match SplitAtFirst(p, '=')
    case (_, None) => None
    case (k, Some(v)) =>
      match UnescapeDataString(v)
      case None => None
      case Some(value) => Some((k, value))
  }

  function ParseParameters(ps: seq<string>): Option<Query> {
    if ps == [] then Some([])
    else match (ParseParameter(ps[0]), ParseParameters(ps[1..]))
      case (Some(p), Some(rest)) => Some([p] + rest)
      case _ => None
  }

  /** Reads a query string back into its entries. */
  function Parse(s: string): Option<Query> {
    ParseParameters(Split(s, '&'))
  }

  lemma ParseParameterOf(p: (string, string))
    requires '=' !in p.0
    ensures ParseParameter(Parameter(p)) == Some(p)
  {
    assert Parameter(p) == p.0 + ['='] + EscapeDataString(p.1);
    SplitAtFirstConcat(p.0, '=', EscapeDataString(p.1));
    UnescapeEscape(p.1);
  }

  lemma {:induction false} ParseParametersOf(q: Query)
    requires PlainKeys(q)
    ensures ParseParameters(Parameters(q)) == Some(q)
  {
    if q != [] {
      ParseParameterOf(q[0]);
      assert Parameters(q)[1..] == Parameters(q[1..]);
      ParseParametersOf(q[1..]);
      assert [q[0]] + q[1..] == q;
    }
  }

  /**
   * The query string round-trips: parsing it recovers every entry, key and
   * value, in the caller's order.
   */
  lemma ParseJoin(q: Query)
    requires 0 < |q| && PlainKeys(q)
    ensures Parse(Join(q)) == Some(q)
  {
    SplitJoin(q);
    ParseParametersOf(q);
  }
}
