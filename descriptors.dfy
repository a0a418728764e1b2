/**
 * The `{type, subParams, name}` descriptors the Handlebars helpers of src/helpers.js walk,
 * the function record they are handed as `this`, and the size measure that proves the
 * helpers' recursions terminate.
 */
module Descriptors {
  import opened Js

  /** A `subParams` property: undefined, or an array of descriptors. */
  datatype Descs = Undefined | Defined(items: seq<TypeDesc>)

  /** A type descriptor: `name` (possibly undefined), `type` (here `kind`) and `subParams`. */
  datatype TypeDesc = TypeDesc(name: Option<string>, kind: string, subParams: Descs)

  /** The function record a helper receives as `this` (or as its context): its `id`, its
      doc `comment` and its `params`. */
  datatype FuncData = FuncData(id: string, comment: string, params: Descs)

  /** The sub-descriptors of `d`, with an undefined `subParams` read as none. */
  function Children(d: TypeDesc): (c: seq<TypeDesc>)
    ensures d.subParams.Defined? ==> c == d.subParams.items
    ensures d.subParams.Undefined? ==> c == []
  {
    if d.subParams.Defined? then d.subParams.items else []
  }

  function Sum(s: seq<nat>): (r: nat)
    ensures forall i :: 0 <= i < |s| ==> s[i] <= r
  {
    if s == [] then 0 else s[0] + Sum(s[1..])
  }

  /** The number of descriptors in the tree rooted at `d`. */
  function Size(d: TypeDesc): (n: nat)
    ensures n >= 1
  {
    match d.subParams
    case Undefined => 1
    case Defined(s) => 1 + Sum(seq(|s|, i requires 0 <= i < |s| => Size(s[i])))
  }

  /** The number of descriptors in the trees of `s`. */
  function SizeAll(s: seq<TypeDesc>): nat
  {
    Sum(seq(|s|, i requires 0 <= i < |s| => Size(s[i])))
  }

  /** `SizeAll` of an array that may be undefined. */
  function SizeOf(o: Descs): nat
  {
    if o.Defined? then SizeAll(o.items) else 0
  }

  lemma SizeUnfold(d: TypeDesc)
    ensures Size(d) == 1 + SizeOf(d.subParams)
    ensures Size(d) == 1 + SizeAll(Children(d))
  {
    if d.subParams.Undefined? {
      assert SizeAll([]) == Sum([]);
    }
  }

  lemma SizeAllBound(s: seq<TypeDesc>)
    ensures forall i :: 0 <= i < |s| ==> Size(s[i]) <= SizeAll(s)
  {
    var sizes := seq(|s|, i requires 0 <= i < |s| => Size(s[i]));
    assert forall i :: 0 <= i < |s| ==> sizes[i] == Size(s[i]);
  }

  lemma SizeAllSingleton(d: TypeDesc)
    ensures SizeAll([d]) == Size(d)
  {
    var sizes := seq(1, i requires 0 <= i < 1 => Size([d][i]));
    assert sizes == [Size(d)];
    assert Sum(sizes) == Size(d) + Sum([]);
  }

  /** Every child of `d` is a strictly smaller tree than `d`. */
  lemma ChildSmaller(d: TypeDesc)
    ensures forall i :: 0 <= i < |Children(d)| ==> Size(Children(d)[i]) < Size(d)
    ensures SizeAll(Children(d)) < Size(d)
  {
    SizeUnfold(d);
    SizeAllBound(Children(d));
  }
}
