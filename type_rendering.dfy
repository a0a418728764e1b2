/**
 * `typeRender` and `typeRenderer` (src/helpers.js): the TypeScript text of a type
 * descriptor. A union joins, with `" | "`, the renderings of the elements of the OUTER list
 * `types` (not of its own `subParams`); `Array` renders its sub-descriptors one after the
 * other between `Array<` and `>`; a function type renders `(...args: any[]...)` and throws
 * on any shape other than arrays of `any`; every other kind renders as its name.
 */
module TypeRendering {
  import opened Js
  import opened Descriptors

  /** The values of `rs` in order, or the first error among them. */
  function Collect(rs: seq<Result<string>>): (r: Result<seq<string>>)
    ensures r.Ok? <==> forall i :: 0 <= i < |rs| ==> rs[i].Ok?
    ensures r.Ok? ==> |r.value| == |rs| && forall i :: 0 <= i < |rs| ==> rs[i] == Ok(r.value[i])
  {
    if rs == [] then Ok([])
    else
      var c := Collect(rs[..|rs| - 1]);
      if c.Err? then c
      else if rs[|rs| - 1].Err? then Err(rs[|rs| - 1].error)
      else Ok(c.value + [rs[|rs| - 1].value])
  }

  /** Once a prefix fails, the whole list fails with the same error. */
  lemma {:induction false} CollectPrefixErr(rs: seq<Result<string>>, n: nat)
    requires n <= |rs|
    requires Collect(rs[..n]).Err?
    ensures Collect(rs) == Collect(rs[..n])
    decreases |rs| - n
  {
    if n < |rs| {
      assert rs[..n + 1][..n] == rs[..n];
      CollectPrefixErr(rs, n + 1);
    } else {
      assert rs[..n] == rs;
    }
  }

  /** The error of a failed list is that of its first failing element. */
  lemma {:induction false} CollectErrAt(rs: seq<Result<string>>)
    requires Collect(rs).Err?
    ensures exists k :: 0 <= k < |rs| && rs[k] == Err(Collect(rs).error) && forall j :: 0 <= j < k ==> rs[j].Ok?
  {
    var n := |rs| - 1;
    var front := rs[..n];
    if Collect(front).Err? {
      CollectErrAt(front);
      var k :| 0 <= k < |front| && front[k] == Err(Collect(front).error) && forall j :: 0 <= j < k ==> front[j].Ok?;
      assert rs[k] == front[k];
      assert forall j :: 0 <= j < k ==> rs[j] == front[j];
    } else {
      assert forall j :: 0 <= j < n ==> rs[j] == front[j];
    }
  }

  /** One more element of a list whose prefix succeeded. */
  lemma CollectStep(rs: seq<Result<string>>, n: nat)
    requires n < |rs|
    requires Collect(rs[..n]).Ok?
    ensures rs[n].Err? ==> Collect(rs[..n + 1]) == Err(rs[n].error)
    ensures rs[n].Ok? ==> Collect(rs[..n + 1]) == Ok(Collect(rs[..n]).value + [rs[n].value])
  {
    assert rs[..n + 1][..n] == rs[..n];
  }

  /** The error thrown for a descriptor kind the renderer has no case for; the message
      names the kind and asks for an issue to be filed. */
  function UnknownHelper(kind: string): Error
  {
    Thrown("type helper " + kind + " unknown! Please create github issue")
  }

  /** `forEach` read on an undefined `subParams` (or `types`). */
  const NoForEach: Error := UndefinedProperty("forEach")

  /** One element of an array parameter of a function type: `any` followed by `[]`. */
  function InnerArg(inner: TypeDesc): Result<string>
  {
    if inner.kind == "TSAnyKeyword" then Ok("any[]") else Err(UnknownHelper(inner.kind))
  }

  function InnerArgs(e: TypeDesc): seq<Result<string>>
    requires e.subParams.Defined?
  {
    seq(|e.subParams.items|, i requires 0 <= i < |e.subParams.items| => InnerArg(e.subParams.items[i]))
  }

  /** What one parameter of a function type appends, or the error it throws. */
  function ParamArgs(e: TypeDesc): Result<string>
  {
    if e.kind != "TSArrayType" then Err(UnknownHelper(e.kind))
    else if e.subParams.Undefined? then Err(NoForEach)
    else
      var c := Collect(InnerArgs(e));
      if c.Err? then Err(c.error) else Ok(Concat(c.value))
  }

  function ParamsArgs(d: TypeDesc): seq<Result<string>>
    requires d.subParams.Defined?
  {
    seq(|d.subParams.items|, i requires 0 <= i < |d.subParams.items| => ParamArgs(d.subParams.items[i]))
  }

  /** The rendering of a `TSFunctionType` descriptor. */
  function FunctionRendered(d: TypeDesc): Result<string>
  {
    if d.subParams.Undefined? then Err(NoForEach)
    else
      var c := Collect(ParamsArgs(d));
      if c.Err? then Err(c.error) else Ok("(...args: " + Concat(c.value) + ")")
  }

  /** The measure under which `typeRenderer` recurses: a union renders the elements of
      `types`, every other kind only its own sub-descriptors. */
  function RenderMeasure(types: Descs, d: TypeDesc): nat
  {
    if d.kind == "TSUnionType" then SizeOf(types) + 1 else Size(d)
  }

  /** The children of `d` have smaller measures than `d` itself, whatever their kind. */
  lemma ChildMeasures(d: TypeDesc)
    requires d.subParams.Defined?
    ensures forall i :: 0 <= i < |d.subParams.items| ==>
      RenderMeasure(d.subParams.items[i].subParams, d.subParams.items[i]) < Size(d)
  {
    ChildSmaller(d);
    forall i | 0 <= i < |d.subParams.items|
      ensures RenderMeasure(d.subParams.items[i].subParams, d.subParams.items[i]) < Size(d)
    {
      SizeUnfold(d.subParams.items[i]);
    }
  }

  /** The first `i` elements of `types` are non-unions that render against `types`
      without throwing, so the `forEach` of a union reaches element `i`. */
  predicate UnionOkBefore(types: Descs, i: nat)
    requires types.Defined? && i <= |types.items|
    decreases SizeOf(types) + 1, 0
  {
    SizeAllBound(types.items);
    forall j :: 0 <= j < i ==>
      && types.items[j].kind != "TSUnionType"
      && Renderable(types, types.items[j])
      && Rendered(types, types.items[j]).Ok?
  }

  /** The first `i` sub-descriptors of the `Array` `d` render without throwing, so its
      `forEach` reaches sub-descriptor `i`. */
  predicate ArrayOkBefore(d: TypeDesc, i: nat)
    requires d.subParams.Defined? && i <= |d.subParams.items|
    decreases Size(d), 0
  {
    ChildMeasures(d);
    forall j :: 0 <= j < i ==>
      && Renderable(d.subParams.items[j].subParams, d.subParams.items[j])
      && Rendered(d.subParams.items[j].subParams, d.subParams.items[j]).Ok?
  }

  /** One more element that renders keeps the union's `forEach` going. */
  lemma UnionOkStep(types: Descs, i: nat)
    requires types.Defined? && i < |types.items| && UnionOkBefore(types, i)
    requires types.items[i].kind != "TSUnionType" && Renderable(types, types.items[i])
    requires Rendered(types, types.items[i]).Ok?
    ensures UnionOkBefore(types, i + 1)
  {
  }

  /** One more sub-descriptor that renders keeps the `Array`'s `forEach` going. */
  lemma ArrayOkStep(d: TypeDesc, i: nat)
    requires d.subParams.Defined? && i < |d.subParams.items| && ArrayOkBefore(d, i)
    requires Renderable(d.subParams.items[i].subParams, d.subParams.items[i])
    requires Rendered(d.subParams.items[i].subParams, d.subParams.items[i]).Ok?
    ensures ArrayOkBefore(d, i + 1)
  {
  }

  /** `typeRenderer(types, d)` terminates. A union renders the elements of `types` in
      order until one throws; an element it reaches that is itself a union would render
      the same list again without end, so none may be. The elements after the first
      throwing one are never reached and are unconstrained; the same holds for the
      sub-descriptors of an `Array`. */
  predicate Renderable(types: Descs, d: TypeDesc)
    decreases RenderMeasure(types, d), 1
  {
    if d.kind == "TSUnionType" then
      types.Defined? ==> (
        SizeAllBound(types.items);
        forall i :: 0 <= i < |types.items| ==> UnionOkBefore(types, i) ==>
          types.items[i].kind != "TSUnionType" && Renderable(types, types.items[i]))
    else if d.kind == "Array" then
      d.subParams.Defined? ==> (
        ChildMeasures(d);
        forall i :: 0 <= i < |d.subParams.items| ==> ArrayOkBefore(d, i) ==>
          Renderable(d.subParams.items[i].subParams, d.subParams.items[i]))
    else true
  }

  /** The renderings of the elements of `types`, each against `types`, as far as the
      `forEach` gets. An element after the first throwing one is never rendered; its
      entry is a stand-in error, so that the first error is still the one thrown
      (`UnionPartsErr`). */
  function UnionParts(types: Descs, d: TypeDesc): seq<Result<string>>
    requires Renderable(types, d) && d.kind == "TSUnionType" && types.Defined?
    decreases RenderMeasure(types, d), 2
  {
    SizeAllBound(types.items);
    seq(|types.items|, i requires 0 <= i < |types.items| =>
      if UnionOkBefore(types, i) then Rendered(types, types.items[i]) else Err(NoForEach))
  }

  /** The renderings of the sub-descriptors of an `Array`, each against its own children,
      as far as the `forEach` gets, with the same stand-in as in `UnionParts`. */
  function ArrayParts(types: Descs, d: TypeDesc): seq<Result<string>>
    requires Renderable(types, d) && d.kind == "Array" && d.subParams.Defined?
    decreases RenderMeasure(types, d), 2
  {
    ChildMeasures(d);
    seq(|d.subParams.items|, i requires 0 <= i < |d.subParams.items| =>
      if ArrayOkBefore(d, i) then Rendered(d.subParams.items[i].subParams, d.subParams.items[i])
      else Err(NoForEach))
  }

  /** What `typeRenderer(types, d)` returns or throws. */
  function Rendered(types: Descs, d: TypeDesc): Result<string>
    requires Renderable(types, d)
    decreases RenderMeasure(types, d), 3
  {
    if d.kind == "TSUnionType" then
      if types.Undefined? then Err(NoForEach)
      else
        var c := Collect(UnionParts(types, d));
        if c.Err? then Err(c.error) else Ok(Join(c.value, " | "))
    else if d.kind == "Array" then
      if d.subParams.Undefined? then Err(NoForEach)
      else
        var c := Collect(ArrayParts(types, d));
        if c.Err? then Err(c.error) else Ok("Array<" + Concat(c.value) + ">")
    else if d.kind == "TSFunctionType" then FunctionRendered(d)
    else Ok(d.kind)
  }

  /** `typeRender(types, typedef)`. */
  method TypeRender(types: Descs, typedef: TypeDesc) returns (r: Result<string>)
    requires Renderable(types, typedef)
    ensures r == Rendered(types, typedef)
  {
    r := TypeRenderer(types, typedef);
  }

  /** `typeRenderer(types, typedef)`. */
  method TypeRenderer(types: Descs, typedef: TypeDesc) returns (r: Result<string>)
    requires Renderable(types, typedef)
    ensures r == Rendered(types, typedef)
    decreases RenderMeasure(types, typedef), 2
  {
    if typedef.kind == "TSUnionType" {
      r := UnionRenderer(types, typedef);
    } else if typedef.kind == "Array" {
      r := ArrayRenderer(types, typedef);
    } else if typedef.kind == "TSFunctionType" {
      r := FunctionRenderer(typedef);
    } else {
      r := Ok(typedef.kind);
    }
  }

  /** The union case: every element of `types` rendered against `types`, then joined. */
  method UnionRenderer(types: Descs, typedef: TypeDesc) returns (r: Result<string>)
    requires Renderable(types, typedef) && typedef.kind == "TSUnionType"
    ensures r == Rendered(types, typedef)
    decreases RenderMeasure(types, typedef), 1
  {
    if types.Undefined? {
      return Err(NoForEach);
    }
    ghost var parts := UnionParts(types, typedef);
    SizeAllBound(types.items);
    var union: seq<string> := [];
    for i := 0 to |types.items|
      invariant Collect(parts[..i]) == Ok(union) && UnionOkBefore(types, i)
    {
      assert types.items[i].kind != "TSUnionType" && Renderable(types, types.items[i]);
      assert parts[i] == Rendered(types, types.items[i]);
      CollectStep(parts, i);
      var s := TypeRenderer(types, types.items[i]);
      if s.Err? {
        CollectPrefixErr(parts, i + 1);
        return Err(s.error);
      }
      UnionOkStep(types, i);
      union := union + [s.value];
    }
    assert parts[..|types.items|] == parts;
    r := Ok(Join(union, " | "));
  }

  /** The `Array` case: `"Array<"`, each sub-descriptor rendered against its own
      children, and `">"`. */
  method ArrayRenderer(types: Descs, typedef: TypeDesc) returns (r: Result<string>)
    requires Renderable(types, typedef) && typedef.kind == "Array"
    ensures r == Rendered(types, typedef)
    decreases Size(typedef), 1
  {
    if typedef.subParams.Undefined? {
      return Err(NoForEach);
    }
    var subs := typedef.subParams.items;
    ghost var parts := ArrayParts(types, typedef);
    ChildMeasures(typedef);
    var arr := "Array<";
    for i := 0 to |subs|
      invariant Collect(parts[..i]).Ok? && arr == "Array<" + Concat(Collect(parts[..i]).value)
      invariant ArrayOkBefore(typedef, i)
    {
      assert Renderable(subs[i].subParams, subs[i]);
      assert parts[i] == Rendered(subs[i].subParams, subs[i]);
      CollectStep(parts, i);
      var s := TypeRenderer(subs[i].subParams, subs[i]);
      if s.Err? {
        CollectPrefixErr(parts, i + 1);
        return Err(s.error);
      }
      ArrayOkStep(typedef, i);
      ConcatAssoc("Array<", Concat(Collect(parts[..i]).value), s.value);
      arr := arr + s.value;
    }
    assert parts[..|subs|] == parts;
    arr := arr + ">";
    r := Ok(arr);
  }

  /** The `TSFunctionType` case: two nested loops that append `any[]` per element of each
      array parameter, throwing on any other shape. */
  method FunctionRenderer(typedef: TypeDesc) returns (r: Result<string>)
    ensures r == FunctionRendered(typedef)
  {
    if typedef.subParams.Undefined? {
      return Err(NoForEach);
    }
    var params := typedef.subParams.items;
    ghost var parts := ParamsArgs(typedef);
    var output := "(...args: ";
    for i := 0 to |params|
      invariant Collect(parts[..i]).Ok? && output == "(...args: " + Concat(Collect(parts[..i]).value)
    {
      CollectStep(parts, i);
      var next := ParamAppender(output, params[i]);
      if next.Err? {
        CollectPrefixErr(parts, i + 1);
        return Err(next.error);
      }
      ConcatAssoc("(...args: ", Concat(Collect(parts[..i]).value), ParamArgs(params[i]).value);
      output := next.value;
    }
    assert parts[..|params|] == parts;
    output := output + ")";
    r := Ok(output);
  }

  /** One round of the outer loop of the function-type case: appends to `output` what
      parameter `element` adds, or throws. */
  method ParamAppender(output: string, element: TypeDesc) returns (r: Result<string>)
    ensures ParamArgs(element).Err? ==> r == Err(ParamArgs(element).error)
    ensures ParamArgs(element).Ok? ==> r == Ok(output + ParamArgs(element).value)
  {
    if element.kind != "TSArrayType" {
      return Err(UnknownHelper(element.kind));
    }
    if element.subParams.Undefined? {
      return Err(NoForEach);
    }
    var inners := element.subParams.items;
    ghost var iparts := InnerArgs(element);
    var out := output;
    for j := 0 to |inners|
      invariant Collect(iparts[..j]).Ok? && out == output + Concat(Collect(iparts[..j]).value)
    {
      CollectStep(iparts, j);
      if inners[j].kind != "TSAnyKeyword" {
        CollectPrefixErr(iparts, j + 1);
        return Err(UnknownHelper(inners[j].kind));
      }
      ConcatAssoc(output, Concat(Collect(iparts[..j]).value), "any[]");
      out := out + "any";
      out := out + "[]";
    }
    assert iparts[..|inners|] == iparts;
    r := Ok(out);
  }

  /** A function type renders exactly when each of its parameters is an array of `any`. */
  predicate AnyArray(e: TypeDesc)
  {
    && e.kind == "TSArrayType"
    && e.subParams.Defined?
    && forall j :: 0 <= j < |e.subParams.items| ==> e.subParams.items[j].kind == "TSAnyKeyword"
  }

  predicate AnyArgsShape(d: TypeDesc)
  {
    d.subParams.Defined? && forall i :: 0 <= i < |d.subParams.items| ==> AnyArray(d.subParams.items[i])
  }

  /** `n` copies of `s`. */
  function Repeat(s: string, n: nat): (r: string)
    ensures |r| == n * |s|
  {
    if n == 0 then "" else Repeat(s, n - 1) + s
  }

  /** The number of sub-descriptors of all of `params` together. */
  function ArgCount(params: seq<TypeDesc>): nat
  {
    if params == [] then 0 else ArgCount(params[..|params| - 1]) + |Children(params[|params| - 1])|
  }

  lemma {:induction false} RepeatAdd(s: string, m: nat, n: nat)
    ensures Repeat(s, m) + Repeat(s, n) == Repeat(s, m + n)
    decreases n
  {
    if n > 0 {
      RepeatAdd(s, m, n - 1);
      ConcatAssoc(Repeat(s, m), Repeat(s, n - 1), s);
    }
  }

  /** Pieces that are all `s` concatenate to repeated `s`. */
  lemma {:induction false} ConcatSame(v: seq<string>, s: string)
    requires forall i :: 0 <= i < |v| ==> v[i] == s
    ensures Concat(v) == Repeat(s, |v|)
  {
    if v != [] {
      ConcatSame(v[..|v| - 1], s);
    }
  }

  /** Pieces that repeat `s` once per sub-descriptor of each parameter. */
  lemma {:induction false} ConcatRepeats(v: seq<string>, params: seq<TypeDesc>, s: string)
    requires |v| == |params|
    requires forall i :: 0 <= i < |v| ==> v[i] == Repeat(s, |Children(params[i])|)
    ensures Concat(v) == Repeat(s, ArgCount(params))
  {
    if v != [] {
      var n := |v| - 1;
      ConcatRepeats(v[..n], params[..n], s);
      RepeatAdd(s, ArgCount(params[..n]), |Children(params[n])|);
    }
  }

  /** One parameter of a function type appends `any[]` per element exactly when it is an
      array of `any`. */
  lemma ParamArgsOk(e: TypeDesc)
    ensures ParamArgs(e).Ok? <==> AnyArray(e)
    ensures ParamArgs(e).Ok? ==> ParamArgs(e).value == Repeat("any[]", |Children(e)|)
  {
    if e.kind == "TSArrayType" && e.subParams.Defined? {
      var parts := InnerArgs(e);
      assert forall j :: 0 <= j < |parts| ==> (parts[j].Ok? <==> e.subParams.items[j].kind == "TSAnyKeyword");
      var c := Collect(parts);
      if c.Ok? {
        ConcatSame(c.value, "any[]");
      }
    }
  }

  /** `typeRenderer` on a function type succeeds exactly when every parameter is an array
      of `any`, and then writes `any[]` once per array element, with no separator. */
  lemma FunctionRenderedOk(d: TypeDesc)
    ensures FunctionRendered(d).Ok? <==> AnyArgsShape(d)
    ensures FunctionRendered(d).Ok? ==>
      FunctionRendered(d).value == "(...args: " + Repeat("any[]", ArgCount(d.subParams.items)) + ")"
  {
    if d.subParams.Defined? {
      var params := d.subParams.items;
      var parts := ParamsArgs(d);
      forall i | 0 <= i < |params|
        ensures parts[i].Ok? <==> AnyArray(params[i])
        ensures parts[i].Ok? ==> parts[i].value == Repeat("any[]", |Children(params[i])|)
      {
        ParamArgsOk(params[i]);
      }
      var c := Collect(parts);
      if c.Ok? {
        ConcatRepeats(c.value, params, "any[]");
      }
    }
  }

  /** A function type fails only by a missing `subParams` or by naming the kind it does not
      know. */
  lemma FunctionRenderedErr(d: TypeDesc)
    ensures FunctionRendered(d).Err? ==>
      FunctionRendered(d).error == NoForEach || exists kind :: FunctionRendered(d).error == UnknownHelper(kind)
  {
    if d.subParams.Defined? && Collect(ParamsArgs(d)).Err? {
      var parts := ParamsArgs(d);
      CollectErrAt(parts);
      var k :| 0 <= k < |parts| && parts[k] == Err(Collect(parts).error);
      var e := d.subParams.items[k];
      if e.kind == "TSArrayType" && e.subParams.Defined? {
        var inner := InnerArgs(e);
        CollectErrAt(inner);
        var j :| 0 <= j < |inner| && inner[j] == Err(Collect(inner).error);
        assert inner[j] == Err(UnknownHelper(e.subParams.items[j].kind));
      }
    }
  }

  /** A union renders the elements of the outer list whatever its own `subParams` and
      name: two union descriptors render identically against the same list. */
  lemma UnionUsesOuterList(types: Descs, d: TypeDesc, e: TypeDesc)
    requires d.kind == "TSUnionType" && e.kind == "TSUnionType"
    ensures Renderable(types, d) <==> Renderable(types, e)
    ensures Renderable(types, d) ==> Rendered(types, d) == Rendered(types, e)
  {
    if Renderable(types, d) && types.Defined? {
      assert UnionParts(types, d) == UnionParts(types, e);
    }
  }

  /** Neither a union nor a function type anywhere, and every `Array` has `subParams`. */
  predicate Plain(d: TypeDesc)
  {
    && d.kind != "TSUnionType"
    && d.kind != "TSFunctionType"
    && (d.kind == "Array" ==>
          d.subParams.Defined? && forall i :: 0 <= i < |d.subParams.items| ==> Plain(d.subParams.items[i]))
  }

  /** A plain descriptor always renders, against any list. */
  lemma {:induction false} PlainRenders(types: Descs, d: TypeDesc)
    requires Plain(d)
    ensures Renderable(types, d) && Rendered(types, d).Ok?
    decreases Size(d)
  {
    if d.kind == "Array" {
      var subs := d.subParams.items;
      ChildSmaller(d);
      forall i | 0 <= i < |subs|
        ensures Renderable(subs[i].subParams, subs[i]) && Rendered(subs[i].subParams, subs[i]).Ok?
      {
        PlainRenders(subs[i].subParams, subs[i]);
      }
      assert forall i :: 0 <= i <= |subs| ==> ArrayOkBefore(d, i);
      assert Renderable(types, d);
      var parts := ArrayParts(types, d);
      forall i | 0 <= i < |parts|
        ensures parts[i].Ok?
      {
        assert ArrayOkBefore(d, i);
        assert parts[i] == Rendered(subs[i].subParams, subs[i]);
      }
    }
  }

  /** A union over a defined list of plain descriptors renders their renderings joined
      with `" | "`. */
  lemma UnionOfPlain(types: Descs, d: TypeDesc) returns (vs: seq<string>)
    requires d.kind == "TSUnionType" && types.Defined?
    requires forall i :: 0 <= i < |types.items| ==> Plain(types.items[i])
    ensures |vs| == |types.items|
    ensures forall i :: 0 <= i < |types.items| ==>
              Renderable(types, types.items[i]) && Rendered(types, types.items[i]) == Ok(vs[i])
    ensures Renderable(types, d) && Rendered(types, d) == Ok(Join(vs, " | "))
  {
    forall i | 0 <= i < |types.items|
      ensures Renderable(types, types.items[i]) && Rendered(types, types.items[i]).Ok?
    {
      PlainRenders(types, types.items[i]);
    }
    assert forall i :: 0 <= i <= |types.items| ==> UnionOkBefore(types, i);
    assert Renderable(types, d);
    var parts := UnionParts(types, d);
    assert forall i :: 0 <= i < |parts| ==> parts[i].Ok?;
    vs := Collect(parts).value;
  }

  /** A union whose outer list throws at a function type without `subParams` stops there
      with that error: the union that follows in the list is never reached, so it does not
      recurse. */
  lemma UnionStopsAtEarlierThrow()
    ensures var fn := TypeDesc(None, "TSFunctionType", Undefined);
            var types := Defined([fn, TypeDesc(None, "TSUnionType", Undefined)]);
            Renderable(types, types.items[1]) && Rendered(types, types.items[1]) == Err(NoForEach)
  {
    var fn := TypeDesc(None, "TSFunctionType", Undefined);
    var u := TypeDesc(None, "TSUnionType", Undefined);
    var types := Defined([fn, u]);
    assert Renderable(types, fn) && Rendered(types, fn) == Err(NoForEach);
    assert UnionOkBefore(types, 0);
    assert Renderable(types, u);
    var parts := UnionParts(types, u);
    assert parts[0] == Err(NoForEach);
    assert parts[..1] == [parts[0]];
    assert Collect(parts[..1]) == Err(NoForEach);
    CollectPrefixErr(parts, 1);
  }

  /** `Array` of string and number renders as `Array<stringnumber>`: the elements are
      concatenated without a separator. */
  lemma ArrayExample()
    ensures Rendered(Undefined, TypeDesc(None, "Array", Defined([TypeDesc(None, "string", Undefined),
      TypeDesc(None, "number", Undefined)]))) == Ok("Array<stringnumber>")
  {
    var str := TypeDesc(None, "string", Undefined);
    var num := TypeDesc(None, "number", Undefined);
    var arr := TypeDesc(None, "Array", Defined([str, num]));
    PlainRenders(Undefined, arr);
    var parts := ArrayParts(Undefined, arr);
    assert parts[0] == Rendered(Undefined, str) == Ok("string");
    assert parts[1] == Rendered(Undefined, num) == Ok("number");
    var c := Collect(parts);
    assert c.Ok? && parts[0] == Ok(c.value[0]) && parts[1] == Ok(c.value[1]);
    assert c.value == ["string", "number"];
    assert Rendered(Undefined, arr) == Ok("Array<" + Concat(c.value) + ">");
    assert Concat(["string", "number"]) == "stringnumber" by {
      assert ["string", "number"][..1] == ["string"];
      assert ["string"][..0] == [];
    }
    assert "Array<" + "stringnumber" + ">" == "Array<stringnumber>";
  }

  /** A union over string and number renders as `string | number`. */
  lemma UnionExample()
    ensures Rendered(Defined([TypeDesc(None, "string", Undefined), TypeDesc(None, "number", Undefined)]),
      TypeDesc(None, "TSUnionType", Undefined)) == Ok("string | number")
  {
    var str := TypeDesc(None, "string", Undefined);
    var num := TypeDesc(None, "number", Undefined);
    var types := Defined([str, num]);
    var u := TypeDesc(None, "TSUnionType", Undefined);
    var vs := UnionOfPlain(types, u);
    assert Rendered(types, types.items[0]) == Ok("string");
    assert Rendered(types, types.items[1]) == Ok("number");
    assert vs == ["string", "number"];
    assert Join(["string", "number"], " | ") == "string | number" by {
      assert ["string", "number"][..1] == ["string"];
    }
  }
}
