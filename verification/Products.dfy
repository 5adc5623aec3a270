/** The product row the serializers exchange: the columns they write. */
module Products {
  import opened Wrappers
  import opened Sequences
  import opened DecimalText

  datatype Product = Product(productCode: string, name: string, status: string, stock: int32, qualityRate: real)

  /** A product with its rate to the nearest tenth, which is all either format carries. */
  function Rounded(p: Product): Product {
    p.(qualityRate := Tenths(p.qualityRate) as real / 10.0)
  }

  function AllRounded(ps: seq<Product>): (r: seq<Product>)
    ensures |r| == |ps| && forall i :: 0 <= i < |ps| ==> r[i] == Rounded(ps[i])
  {
    if ps == [] then [] else [Rounded(ps[0])] + AllRounded(ps[1..])
  }

  lemma RoundedSame(ps: seq<Product>)
    ensures AllRounded(ps) == ps <==> forall p <- ps :: WholeTenths(p.qualityRate)
  {
    forall p | p in ps ensures Rounded(p) == p <==> WholeTenths(p.qualityRate) {}
    if forall p <- ps :: WholeTenths(p.qualityRate) {
      assert forall i :: 0 <= i < |ps| ==> AllRounded(ps)[i] == ps[i];
    } else {
      var p :| p in ps && !WholeTenths(p.qualityRate);
      var i :| 0 <= i < |ps| && ps[i] == p;
      assert AllRounded(ps)[i] != ps[i];
    }
  }

  /** Products already read, before the result for the rest of the text. */
  function Prepended<E>(out: seq<Product>, r: Result<seq<Product>, E>): Result<seq<Product>, E> {
    match r
    case Ok(more) => Ok(out + more)
    case Err(e) => Err(e)
  }

  lemma PrependNothing<E>(r: Result<seq<Product>, E>)
    ensures Prepended([], r) == r
  {
    if r.Ok? {
      assert [] + r.value == r.value;
    }
  }

  lemma PrependStep<E>(out: seq<Product>, p: Product, r: Result<seq<Product>, E>)
    ensures Prepended(out + [p], r) == Prepended(out, Prepended([p], r))
  {
    if r.Ok? {
      Associative(out, [p], r.value);
    }
  }
}
