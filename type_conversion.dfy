/**
 * `typeConverter` (src/helpers.js): normalises a list of descriptors into a canonical
 * tree. String and number keywords become `string` and `number`; `Array` and union
 * descriptors keep their kind and have their `subParams` converted; every other
 * descriptor becomes a childless node of the same kind. Names are dropped.
 */
module TypeConversion {
  import opened Js
  import opened Descriptors

  /** The kinds whose `subParams` `typeConverter` descends into. */
  predicate IsStructured(kind: string)
  {
    kind == "Array" || kind == "TSUnionType"
  }

  /** The kind a descriptor of kind `kind` has after conversion. */
  function ConvertedKind(kind: string): string
  {
    if kind == "TSStringKeyword" then "string"
    else if kind == "TSNumberKeyword" then "number"
    else kind
  }

  /** `typeConverter` reads `element.subParams.forEach` of every `Array` and union
      descriptor it reaches, so those must have `subParams`. */
  predicate Convertible(d: TypeDesc)
  {
    IsStructured(d.kind) ==>
      d.subParams.Defined? && forall i :: 0 <= i < |d.subParams.items| ==> Convertible(d.subParams.items[i])
  }

  predicate AllConvertible(s: seq<TypeDesc>)
  {
    forall i :: 0 <= i < |s| ==> Convertible(s[i])
  }

  /** The node `typeConverter` pushes for one element. */
  function ConvertNode(d: TypeDesc): (r: TypeDesc)
    requires Convertible(d)
    ensures r.name.None?
    ensures r.kind == ConvertedKind(d.kind)
    ensures r.subParams.Defined? <==> IsStructured(d.kind)
  {
    if IsStructured(d.kind) then
      var subs := d.subParams.items;
      TypeDesc(None, d.kind, Defined(seq(|subs|, i requires 0 <= i < |subs| => ConvertNode(subs[i]))))
    else
      TypeDesc(None, ConvertedKind(d.kind), Undefined)
  }

  /** The list `typeConverter(context)` returns. */
  function ConvertAll(context: seq<TypeDesc>): (r: seq<TypeDesc>)
    requires AllConvertible(context)
    ensures |r| == |context|
  {
    seq(|context|, i requires 0 <= i < |context| => ConvertNode(context[i]))
  }

  /** `typeConverter(context)`: one converted node per element, in the same order; a
      structured element's `subParams` are converted recursively. */
  method TypeConverter(context: seq<TypeDesc>) returns (output: seq<TypeDesc>)
    requires AllConvertible(context)
    ensures |output| == |context|
    ensures forall k :: 0 <= k < |context| ==> output[k] == ConvertNode(context[k])
    decreases SizeAll(context)
  {
    output := [];
    var i := 0;
    while i < |context|
      invariant 0 <= i <= |context|
      invariant |output| == i
      invariant forall k :: 0 <= k < i ==> output[k] == ConvertNode(context[k])
    {
      var element := context[i];
      var converted;
      if element.kind == "TSStringKeyword" {
        converted := TypeDesc(None, "string", Undefined);
      } else if element.kind == "TSNumberKeyword" {
        converted := TypeDesc(None, "number", Undefined);
      } else if IsStructured(element.kind) {
        var items := element.subParams.items;
        assert SizeAll(items) < SizeAll(context) by {
          SizeAllBound(context);
          ChildSmaller(element);
        }
        var subs := TypeConverter(items);
        assert subs == seq(|items|, k requires 0 <= k < |items| => ConvertNode(items[k]));
        converted := TypeDesc(None, element.kind, Defined(subs));
      } else {
        converted := TypeDesc(None, element.kind, Undefined);
      }
      assert converted == ConvertNode(element);
      output := output + [converted];
      i := i + 1;
    }
  }

  /** No string or number keyword occurs anywhere in the tree. */
  predicate KeywordFree(d: TypeDesc)
  {
    && d.kind != "TSStringKeyword"
    && d.kind != "TSNumberKeyword"
    && (d.subParams.Defined? ==> forall i :: 0 <= i < |d.subParams.items| ==> KeywordFree(d.subParams.items[i]))
  }

  /** The output of `typeConverter` holds neither keyword at any depth. */
  lemma {:induction false} ConvertNodeKeywordFree(d: TypeDesc)
    requires Convertible(d)
    ensures KeywordFree(ConvertNode(d))
  {
    if IsStructured(d.kind) {
      var subs := d.subParams.items;
      forall i | 0 <= i < |subs|
        ensures KeywordFree(ConvertNode(d).subParams.items[i])
      {
        ConvertNodeKeywordFree(subs[i]);
      }
    }
  }

  /** The output of `typeConverter` may be handed to `typeConverter` again. */
  lemma {:induction false} ConvertNodeConvertible(d: TypeDesc)
    requires Convertible(d)
    ensures Convertible(ConvertNode(d))
  {
    if IsStructured(d.kind) {
      var subs := d.subParams.items;
      forall i | 0 <= i < |subs|
        ensures Convertible(ConvertNode(d).subParams.items[i])
      {
        ConvertNodeConvertible(subs[i]);
      }
    }
  }

  /** Converting a converted node changes nothing. */
  lemma {:induction false} ConvertNodeIdempotent(d: TypeDesc)
    requires Convertible(d)
    ensures Convertible(ConvertNode(d))
    ensures ConvertNode(ConvertNode(d)) == ConvertNode(d)
  {
    ConvertNodeConvertible(d);
    if IsStructured(d.kind) {
      var subs := d.subParams.items;
      var once := ConvertNode(d).subParams.items;
      forall i | 0 <= i < |subs|
        ensures ConvertNode(once[i]) == once[i]
      {
        ConvertNodeIdempotent(subs[i]);
      }
      assert ConvertNode(ConvertNode(d)).subParams.items == once;
    }
  }

  /** Re-applying `typeConverter` to its own output changes nothing. */
  lemma ConvertAllIdempotent(context: seq<TypeDesc>)
    requires AllConvertible(context)
    ensures AllConvertible(ConvertAll(context))
    ensures ConvertAll(ConvertAll(context)) == ConvertAll(context)
  {
    forall i | 0 <= i < |context|
      ensures Convertible(ConvertAll(context)[i])
      ensures ConvertNode(ConvertAll(context)[i]) == ConvertAll(context)[i]
    {
      ConvertNodeIdempotent(context[i]);
    }
  }

  /** No keyword survives `typeConverter` at any depth. */
  lemma ConvertAllKeywordFree(context: seq<TypeDesc>)
    requires AllConvertible(context)
    ensures forall i :: 0 <= i < |context| ==> KeywordFree(ConvertAll(context)[i])
  {
    forall i | 0 <= i < |context|
      ensures KeywordFree(ConvertAll(context)[i])
    {
      ConvertNodeKeywordFree(context[i]);
    }
  }
}
