/**
 * The storefront's shared data model: catalog products, registered
 * identities, and the first-match search that both the server and the
 * client use to look things up in a list.
 */
module Catalog {

  datatype Option<T> = None | Some(value: T)

  /** A catalog entry. The price is carried along but never computed with. */
  datatype Product = Product(id: string, name: string, price: real, stock: int, image: string, category: string)

  /** A registered identity; no credential is stored. */
  datatype User = User(id: string, name: string, email: string)

  /**
   * The index of the first element that satisfies `p`, or None when no
   * element does: the element JavaScript's `Array.prototype.find` returns.
   */
  function First<T>(s: seq<T>, p: T -> bool): (r: Option<nat>)
    ensures r.Some? ==> r.value < |s| && p(s[r.value]) && forall j :: 0 <= j < r.value ==> !p(s[j])
    ensures r.None? <==> forall j :: 0 <= j < |s| ==> !p(s[j])
  {
    if s == [] then None
    else if p(s[0]) then Some(0)
    else match First(s[1..], p)
      case None => None
      case Some(k) =>
        assert forall j :: 1 <= j < k + 1 ==> s[j] == s[1..][j - 1];
        Some(k + 1)
  }

  /** The search only looks at each element's verdict: equal verdicts, equal answers. */
  lemma FirstSameVerdicts<T, U>(a: seq<T>, p: T -> bool, b: seq<U>, q: U -> bool)
    requires |a| == |b|
    requires forall j :: 0 <= j < |a| ==> p(a[j]) == q(b[j])
    ensures First(a, p) == First(b, q)
  {
  }
}
