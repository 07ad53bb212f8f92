/**
 * The response renderer's reshaping pass (careernavigator/util/api.py,
 * Renderer.reshape): before JSON encoding, every URL object nested in
 * lists, tuples and dictionary values is replaced by its text.
 */
module Rendering {
  /** The Python values a response may carry. `Opaque` stands for every
   * other kind of object (dates, numbers with fractions, sets, ...). */
  datatype Value =
    | Null
    | Boolean(b: bool)
    | Integer(i: int)
    | Text(s: string)
    | Url(href: string)
    | List(items: seq<Value>)
    | Tuple(items: seq<Value>)
    | Dict(entries: seq<Entry>)
    | Opaque(kind: string)

  /** One dictionary item, in insertion order. */
  datatype Entry = Entry(key: Value, val: Value)

  /** No URL object in any list element, tuple element or dictionary value
   * (dictionary keys are not looked at, as reshape leaves them alone). */
  ghost predicate UrlFree(v: Value)
    decreases v
  {
    match v
    case Url(_) => false
    case List(xs) => forall i :: 0 <= i < |xs| ==> UrlFree(xs[i])
    case Tuple(xs) => forall i :: 0 <= i < |xs| ==> UrlFree(xs[i])
    case Dict(es) => forall i :: 0 <= i < |es| ==> UrlFree(es[i].val)
    case _ => true
  }

  /** `r` has the structure of `v`: lists stay lists and tuples stay tuples
   * of the same length, dictionaries keep their keys in order, a URL
   * becomes its text, and every other value is kept as it is. */
  ghost predicate SameShape(v: Value, r: Value)
    decreases v
  {
    match v
    case Url(href) => r == Text(href)
    case List(xs) =>
      r.List? && |r.items| == |xs| && forall i :: 0 <= i < |xs| ==> SameShape(xs[i], r.items[i])
    case Tuple(xs) =>
      r.Tuple? && |r.items| == |xs| && forall i :: 0 <= i < |xs| ==> SameShape(xs[i], r.items[i])
    case Dict(es) =>
      r.Dict? && |r.entries| == |es| &&
      forall i :: 0 <= i < |es| ==> r.entries[i].key == es[i].key && SameShape(es[i].val, r.entries[i].val)
    case _ => r == v
  }

  function Reshape(v: Value): (r: Value)
    ensures SameShape(v, r)
    ensures UrlFree(r)
    ensures UrlFree(v) ==> r == v
    decreases v
  {
    match v
    case List(xs) => List(seq(|xs|, i requires 0 <= i < |xs| => Reshape(xs[i])))
    case Tuple(xs) => Tuple(seq(|xs|, i requires 0 <= i < |xs| => Reshape(xs[i])))
    case Dict(es) => Dict(seq(|es|, i requires 0 <= i < |es| => Entry(es[i].key, Reshape(es[i].val))))
    case Url(href) => Text(href)
    case _ => v
  }

  /** Reshaping an already reshaped value changes nothing. */
  lemma ReshapeIdempotent(v: Value)
    ensures Reshape(Reshape(v)) == Reshape(v)
  {
  }
}
