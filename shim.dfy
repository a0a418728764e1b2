/**
 * The extraction pass of src/generateShim.js: a walk over the statements of the program
 * that, inside every top-level module declaration, turns each enum declaration into an
 * enum record and each declared function into a function record, appending them to the
 * `enums` and `funcs` arrays of `filteredTemplateData`.
 */
module Shim {
  import opened Js
  import opened Ast

  /** One `{key, value}` of an enum record. */
  datatype EnumValue = EnumValue(key: string, value: string)

  /** The record pushed for an enum: `id`, `leadingComment` and `values`. */
  datatype EnumRecord = EnumRecord(id: string, leadingComment: string, values: seq<EnumValue>)

  /** One `{name}` of a function record's `params`. */
  datatype ParamRecord = ParamRecord(name: string)

  /** The record pushed for a declared function. */
  datatype FuncRecord = FuncRecord(
    id: string,
    returnType: string,
    returnTypeParameters: seq<seq<string>>,
    comment: string,
    params: seq<ParamRecord>)

  // ---------------------------------------------------------------------------------
  // What the pass reads without checking: each of these missing makes it throw.

  /** `im.initializer.value` and `im.leadingComments.forEach` are read. */
  predicate MemberReady(im: EnumMember)
  {
    im.initializer.Some? && im.leadingComments.Some?
  }

  /** `inner.leadingComments[0].value` is read, and every member is. */
  predicate EnumReady(s: Statement)
    requires s.EnumDeclaration?
  {
    && s.leadingComments.Some?
    && |s.leadingComments.value| > 0
    && forall i :: 0 <= i < |s.members| ==> MemberReady(s.members[i])
  }

  /** `st.typeName.name` is read for a type reference. */
  predicate TokenReady(t: TsType)
  {
    t.kind == "TSTypeReference" ==> t.typeName.Some?
  }

  /** A type argument of the return type: a union's branches, or the argument itself. */
  predicate TypeArgReady(e: TsType)
  {
    if e.kind == "TSUnionType" then forall j :: 0 <= j < |e.types| ==> TokenReady(e.types[j])
    else TokenReady(e)
  }

  /** `param.typeAnnotation.typeAnnotation` is read. */
  predicate ParamReady(p: Param)
  {
    p.annotation.Some?
  }

  /** Every parameter of `ps` is ready. */
  predicate ParamsReady(ps: seq<Param>)
  {
    forall i :: 0 <= i < |ps| ==> ParamReady(ps[i])
  }

  /** `inner.returnType.typeAnnotation`, its type arguments, `inner.leadingComments` and
      every parameter's annotation are read. */
  predicate FuncReady(s: Statement)
    requires s.DeclareFunction?
  {
    && s.returnType.Some?
    && (s.returnType.value.typeParameters.Some? ==>
          forall i :: 0 <= i < |s.returnType.value.typeParameters.value| ==>
            TypeArgReady(s.returnType.value.typeParameters.value[i]))
    && s.leadingComments.Some?
    && ParamsReady(s.params)
  }

  predicate InnerReady(s: Statement)
  {
    && (s.EnumDeclaration? ==> EnumReady(s))
    && (s.DeclareFunction? ==> FuncReady(s))
  }

  predicate BodyReady(body: seq<Statement>)
  {
    forall i :: 0 <= i < |body| ==> InnerReady(body[i])
  }

  /** The pass runs to the end on `program`. */
  predicate ProgramReady(program: seq<Statement>)
  {
    forall i :: 0 <= i < |program| ==> program[i].ModuleDeclaration? ==> BodyReady(program[i].body)
  }

  // ---------------------------------------------------------------------------------
  // Enums.

  /** The record an enum declaration gives. */
  function EnumOf(s: Statement): (r: EnumRecord)
    requires s.EnumDeclaration? && EnumReady(s)
  {
    EnumRecord(s.id, s.leadingComments.value[0],
      seq(|s.members|, i requires 0 <= i < |s.members| => EnumValue(s.members[i].id, s.members[i].initializer.value)))
  }

  /** The enum branch of the pass: one `{key, value}` per member, pushed in declared
      order. The per-member comment the loop builds is never stored. */
  method BuildEnum(inner: Statement) returns (r: EnumRecord)
    requires inner.EnumDeclaration? && EnumReady(inner)
    ensures r.id == inner.id && r.leadingComment == inner.leadingComments.value[0]
    ensures |r.values| == |inner.members|
    ensures forall i :: 0 <= i < |inner.members| ==>
      r.values[i].key == inner.members[i].id && r.values[i].value == inner.members[i].initializer.value
    ensures r == EnumOf(inner)
  {
    var values: seq<EnumValue> := [];
    for i := 0 to |inner.members|
      invariant |values| == i
      invariant forall k :: 0 <= k < i ==> values[k] == EnumValue(inner.members[k].id, inner.members[k].initializer.value)
    {
      var im := inner.members[i];
      values := values + [EnumValue(im.id, im.initializer.value)];
    }
    r := EnumRecord(inner.id, inner.leadingComments.value[0], values);
  }

  // ---------------------------------------------------------------------------------
  // Functions.

  /** The name a type annotation stands for: the referenced name when the annotation
      has one, otherwise its node kind. */
  function TypeNameOf(t: TsType): string
  {
    if Has(Some(t), TypeName) then t.typeName.value else t.kind
  }

  /** A return-type token: the name of a type reference, otherwise the node kind. */
  function TokenOf(t: TsType): string
    requires TokenReady(t)
  {
    if t.kind == "TSTypeReference" then t.typeName.value else t.kind
  }

  /** The list `subt` built for one type argument. */
  function TypeArgTokens(e: TsType): (r: seq<string>)
    requires TypeArgReady(e)
  {
    if e.kind == "TSUnionType" then seq(|e.types|, j requires 0 <= j < |e.types| => TokenOf(e.types[j]))
    else [TokenOf(e)]
  }

  predicate ReturnReady(t: TsType)
  {
    t.typeParameters.Some? ==>
      forall i :: 0 <= i < |t.typeParameters.value| ==> TypeArgReady(t.typeParameters.value[i])
  }

  /** `rtp`: one list per type argument of the return annotation. */
  function ReturnTypeParams(t: TsType): (r: seq<seq<string>>)
    requires ReturnReady(t)
  {
    if Has(Some(t), TypeParameters) then
      var args := t.typeParameters.value;
      seq(|args|, i requires 0 <= i < |args| => TypeArgTokens(args[i]))
    else []
  }

  /** The name recorded for a parameter: a plain parameter's own name, or a rest
      parameter's argument name behind a `...` prefix. */
  function ParamName(p: Param): string
  {
    if p.Identifier? then p.name else "..." + p.argumentName
  }

  /** What one parameter adds to the comment. */
  function ParamEntry(p: Param): string
    requires ParamReady(p)
  {
    ParamName(p) + " typeof " + TypeNameOf(p.annotation.value) + ", "
  }

  /** Each leading comment followed by a space. */
  function LeadingText(lcs: seq<string>): string
  {
    if lcs == [] then "" else LeadingText(lcs[..|lcs| - 1]) + (lcs[|lcs| - 1] + " ")
  }

  /** The entries of all of `ps`. */
  function ParamsText(ps: seq<Param>): string
    requires ParamsReady(ps)
  {
    if ps == [] then "" else ParamsText(ps[..|ps| - 1]) + ParamEntry(ps[|ps| - 1])
  }

  /** The record a function declaration gives. */
  function FuncOf(s: Statement): FuncRecord
    requires s.DeclareFunction? && FuncReady(s)
  {
    var t := s.returnType.value;
    FuncRecord(s.id, TypeNameOf(t), ReturnTypeParams(t),
      LeadingText(s.leadingComments.value) + ParamsText(s.params),
      seq(|s.params|, i requires 0 <= i < |s.params| => ParamRecord(ParamName(s.params[i]))))
  }

  /** The `rtp` loops: a union type argument gives its branches in order, any other a
      singleton; no type arguments give no lists. */
  method ReturnTypeParameters(t: TsType) returns (rtp: seq<seq<string>>)
    requires ReturnReady(t)
    ensures !Has(Some(t), TypeParameters) ==> rtp == []
    ensures Has(Some(t), TypeParameters) ==>
      && |rtp| == |t.typeParameters.value|
      && forall i :: 0 <= i < |rtp| ==>
        var e := t.typeParameters.value[i];
        if e.kind == "TSUnionType" then
          |rtp[i]| == |e.types| && forall j :: 0 <= j < |e.types| ==> rtp[i][j] == TokenOf(e.types[j])
        else rtp[i] == [TokenOf(e)]
    ensures rtp == ReturnTypeParams(t)
  {
    rtp := [];
    if Has(Some(t), TypeParameters) {
      var args := t.typeParameters.value;
      for i := 0 to |args|
        invariant |rtp| == i
        invariant forall k :: 0 <= k < i ==> rtp[k] == TypeArgTokens(args[k])
      {
        var element := args[i];
        var subt: seq<string> := [];
        if element.kind == "TSUnionType" {
          for j := 0 to |element.types|
            invariant |subt| == j
            invariant forall k :: 0 <= k < j ==> subt[k] == TokenOf(element.types[k])
          {
            var st := element.types[j];
            if st.kind == "TSTypeReference" {
              subt := subt + [st.typeName.value];
            } else {
              subt := subt + [st.kind];
            }
          }
        } else {
          if element.kind == "TSTypeReference" {
            subt := subt + [element.typeName.value];
          } else {
            subt := subt + [element.kind];
          }
        }
        rtp := rtp + [subt];
      }
    }
  }

  /** The first loop over `inner.leadingComments`: each comment followed by a space. */
  method LeadingComment(lcs: seq<string>) returns (comment: string)
    ensures comment == LeadingText(lcs)
  {
    comment := "";
    for i := 0 to |lcs|
      invariant comment == LeadingText(lcs[..i])
    {
      assert lcs[..i + 1][..i] == lcs[..i];
      comment := comment + (lcs[i] + " ");
    }
    assert lcs[..|lcs|] == lcs;
  }

  /** The loop over `inner.params`: appends each parameter's entry to `lead` and pushes
      its `{name}`. */
  method ParamsLoop(lead: string, ps: seq<Param>) returns (comment: string, params: seq<ParamRecord>)
    requires ParamsReady(ps)
    ensures comment == lead + ParamsText(ps)
    ensures |params| == |ps|
    ensures forall i :: 0 <= i < |ps| ==> params[i] == ParamRecord(ParamName(ps[i]))
  {
    comment := lead;
    params := [];
    for i := 0 to |ps|
      invariant comment == lead + ParamsText(ps[..i])
      invariant |params| == i
      invariant forall k :: 0 <= k < i ==> params[k] == ParamRecord(ParamName(ps[k]))
    {
      var param := ps[i];
      var typename := if Has(param.annotation, TypeName) then param.annotation.value.typeName.value else param.annotation.value.kind;
      var pname := if param.Identifier? then param.name else "..." + param.argumentName;
      assert pname + " typeof " + typename + ", " == ParamEntry(param);
      ParamsReadySplit(ps, i);
      ParamsTextSnoc(ps[..i], param);
      assert ps[..i + 1] == ps[..i] + [param];
      ConcatAssoc(lead, ParamsText(ps[..i]), ParamEntry(param));
      comment := comment + (pname + " typeof " + typename + ", ");
      params := params + [ParamRecord(pname)];
    }
    assert ps[..|ps|] == ps;
  }

  /** The function branch of the pass. */
  method BuildFunc(inner: Statement) returns (r: FuncRecord)
    requires inner.DeclareFunction? && FuncReady(inner)
    ensures r.id == inner.id
    ensures r.returnType == TypeNameOf(inner.returnType.value)
    ensures r.returnTypeParameters == ReturnTypeParams(inner.returnType.value)
    ensures r.comment == LeadingText(inner.leadingComments.value) + ParamsText(inner.params)
    ensures |r.params| == |inner.params|
    ensures forall i :: 0 <= i < |inner.params| ==> r.params[i] == ParamRecord(ParamName(inner.params[i]))
    ensures r == FuncOf(inner)
  {
    var annotation := inner.returnType.value;
    var returnType := if Has(Some(annotation), TypeName) then annotation.typeName.value else annotation.kind;
    var rtp := ReturnTypeParameters(annotation);
    var comment := LeadingComment(inner.leadingComments.value);
    var params;
    comment, params := ParamsLoop(comment, inner.params);
    r := FuncRecord(inner.id, returnType, rtp, comment, params);
  }

  // ---------------------------------------------------------------------------------
  // The walk.

  /** The enum records of one module body, in declaration order. */
  function ModuleEnums(body: seq<Statement>): seq<EnumRecord>
    requires BodyReady(body)
  {
    if body == [] then []
    else
      var s := body[|body| - 1];
      ModuleEnums(body[..|body| - 1]) + (if s.EnumDeclaration? then [EnumOf(s)] else [])
  }

  /** The function records of one module body, in declaration order. */
  function ModuleFuncs(body: seq<Statement>): seq<FuncRecord>
    requires BodyReady(body)
  {
    if body == [] then []
    else
      var s := body[|body| - 1];
      ModuleFuncs(body[..|body| - 1]) + (if s.DeclareFunction? then [FuncOf(s)] else [])
  }

  /** The enum records of a program: those of its top-level module declarations. */
  function ProgramEnums(program: seq<Statement>): seq<EnumRecord>
    requires ProgramReady(program)
  {
    if program == [] then []
    else
      var s := program[|program| - 1];
      ProgramEnums(program[..|program| - 1]) + (if s.ModuleDeclaration? then ModuleEnums(s.body) else [])
  }

  /** The function records of a program. */
  function ProgramFuncs(program: seq<Statement>): seq<FuncRecord>
    requires ProgramReady(program)
  {
    if program == [] then []
    else
      var s := program[|program| - 1];
      ProgramFuncs(program[..|program| - 1]) + (if s.ModuleDeclaration? then ModuleFuncs(s.body) else [])
  }

  lemma SeqAssoc<T>(a: seq<T>, b: seq<T>, c: seq<T>)
    ensures a + b + c == a + (b + c)
  {
  }

  /** The records of the first `j + 1` statements of a module body. */
  lemma ModuleSnoc(body: seq<Statement>, j: nat)
    requires BodyReady(body) && j < |body|
    ensures BodyReady(body[..j]) && BodyReady(body[..j + 1])
    ensures ModuleEnums(body[..j + 1]) == ModuleEnums(body[..j]) + (if body[j].EnumDeclaration? then [EnumOf(body[j])] else [])
    ensures ModuleFuncs(body[..j + 1]) == ModuleFuncs(body[..j]) + (if body[j].DeclareFunction? then [FuncOf(body[j])] else [])
  {
    assert forall k :: 0 <= k < j + 1 ==> body[..j + 1][k] == body[k];
    assert forall k :: 0 <= k < j ==> body[..j][k] == body[k];
    assert body[..j + 1][..j] == body[..j];
  }

  /** The records of the first `i + 1` statements of a program. */
  lemma ProgramSnoc(program: seq<Statement>, i: nat)
    requires ProgramReady(program) && i < |program|
    ensures ProgramReady(program[..i]) && ProgramReady(program[..i + 1])
    ensures program[i].ModuleDeclaration? ==> BodyReady(program[i].body)
    ensures ProgramEnums(program[..i + 1]) == ProgramEnums(program[..i]) + (if program[i].ModuleDeclaration? then ModuleEnums(program[i].body) else [])
    ensures ProgramFuncs(program[..i + 1]) == ProgramFuncs(program[..i]) + (if program[i].ModuleDeclaration? then ModuleFuncs(program[i].body) else [])
  {
    assert forall k :: 0 <= k < i + 1 ==> program[..i + 1][k] == program[k];
    assert forall k :: 0 <= k < i ==> program[..i][k] == program[k];
    assert program[..i + 1][..i] == program[..i];
  }

  /** `filteredTemplateData`: the arrays the pass pushes into. */
  class TemplateData {
    var enums: seq<EnumRecord>
    var funcs: seq<FuncRecord>

    /** `{ enums: [], funcs: [] }`. */
    constructor ()
      ensures enums == [] && funcs == []
    {
      enums := [];
      funcs := [];
    }

    /** The inner `forEach` over the body of a module declaration. */
    method ExtractModule(body: seq<Statement>)
      requires BodyReady(body)
      modifies this
      ensures enums == old(enums) + ModuleEnums(body)
      ensures funcs == old(funcs) + ModuleFuncs(body)
    {
      for j := 0 to |body|
        invariant BodyReady(body[..j])
        invariant enums == old(enums) + ModuleEnums(body[..j])
        invariant funcs == old(funcs) + ModuleFuncs(body[..j])
      {
        var inner := body[j];
        ModuleSnoc(body, j);
        if inner.EnumDeclaration? {
          var enumdata := BuildEnum(inner);
          SeqAssoc(old(enums), ModuleEnums(body[..j]), [enumdata]);
          enums := enums + [enumdata];
        }
        if inner.DeclareFunction? {
          var funcdata := BuildFunc(inner);
          SeqAssoc(old(funcs), ModuleFuncs(body[..j]), [funcdata]);
          funcs := funcs + [funcdata];
        }
      }
      assert body[..|body|] == body;
    }

    /** `ast.program.body.forEach(...)`: appends the records of `program`. */
    method Extract(program: seq<Statement>)
      requires ProgramReady(program)
      modifies this
      ensures enums == old(enums) + ProgramEnums(program)
      ensures funcs == old(funcs) + ProgramFuncs(program)
    {
      for i := 0 to |program|
        invariant ProgramReady(program[..i])
        invariant enums == old(enums) + ProgramEnums(program[..i])
        invariant funcs == old(funcs) + ProgramFuncs(program[..i])
      {
        var element := program[i];
        ProgramSnoc(program, i);
        if element.ModuleDeclaration? {
          var body := element.body;
          SeqAssoc(old(enums), ProgramEnums(program[..i]), ModuleEnums(body));
          SeqAssoc(old(funcs), ProgramFuncs(program[..i]), ModuleFuncs(body));
          ExtractModule(body);
        }
      }
      assert program[..|program|] == program;
    }
  }

  // ---------------------------------------------------------------------------------
  // Properties of the walk.

  /** Concatenated module bodies give their records one after the other. */
  lemma {:induction false} ModuleAppend(a: seq<Statement>, b: seq<Statement>)
    requires BodyReady(a) && BodyReady(b)
    ensures BodyReady(a + b)
    ensures ModuleEnums(a + b) == ModuleEnums(a) + ModuleEnums(b)
    ensures ModuleFuncs(a + b) == ModuleFuncs(a) + ModuleFuncs(b)
  {
    assert forall i :: 0 <= i < |a + b| ==> (a + b)[i] == if i < |a| then a[i] else b[i - |a|];
    if b == [] {
      assert a + b == a;
    } else {
      var n := |b| - 1;
      assert (a + b)[..|a + b| - 1] == a + b[..n];
      assert (a + b)[|a + b| - 1] == b[n];
      ModuleAppend(a, b[..n]);
      var e := if b[n].EnumDeclaration? then [EnumOf(b[n])] else [];
      var f := if b[n].DeclareFunction? then [FuncOf(b[n])] else [];
      SeqAssoc(ModuleEnums(a), ModuleEnums(b[..n]), e);
      SeqAssoc(ModuleFuncs(a), ModuleFuncs(b[..n]), f);
    }
  }

  /** Concatenated programs give their records one after the other. */
  lemma {:induction false} ProgramAppend(a: seq<Statement>, b: seq<Statement>)
    requires ProgramReady(a) && ProgramReady(b)
    ensures ProgramReady(a + b)
    ensures ProgramEnums(a + b) == ProgramEnums(a) + ProgramEnums(b)
    ensures ProgramFuncs(a + b) == ProgramFuncs(a) + ProgramFuncs(b)
  {
    assert forall i :: 0 <= i < |a + b| ==> (a + b)[i] == if i < |a| then a[i] else b[i - |a|];
    if b == [] {
      assert a + b == a;
    } else {
      var n := |b| - 1;
      assert (a + b)[..|a + b| - 1] == a + b[..n];
      assert (a + b)[|a + b| - 1] == b[n];
      ProgramAppend(a, b[..n]);
      var e := if b[n].ModuleDeclaration? then ModuleEnums(b[n].body) else [];
      var f := if b[n].ModuleDeclaration? then ModuleFuncs(b[n].body) else [];
      SeqAssoc(ProgramEnums(a), ProgramEnums(b[..n]), e);
      SeqAssoc(ProgramFuncs(a), ProgramFuncs(b[..n]), f);
    }
  }

  /** Inside a module, a statement that is neither an enum nor a declared function (a
      nested module included) contributes nothing; an enum adds one enum record and no
      function record, and a declared function the reverse. */
  lemma InnerContribution(a: seq<Statement>, s: Statement, b: seq<Statement>)
    requires BodyReady(a) && InnerReady(s) && BodyReady(b)
    ensures BodyReady(a + [s] + b)
    ensures ModuleEnums(a + [s] + b) == ModuleEnums(a) + (if s.EnumDeclaration? then [EnumOf(s)] else []) + ModuleEnums(b)
    ensures ModuleFuncs(a + [s] + b) == ModuleFuncs(a) + (if s.DeclareFunction? then [FuncOf(s)] else []) + ModuleFuncs(b)
  {
    assert BodyReady([s]);
    ModuleAppend(a, [s]);
    ModuleAppend(a + [s], b);
    assert [s][..0] == [];
  }

  /** At the top level only module declarations contribute. */
  lemma TopLevelContribution(a: seq<Statement>, s: Statement, b: seq<Statement>)
    requires ProgramReady(a) && (s.ModuleDeclaration? ==> BodyReady(s.body)) && ProgramReady(b)
    ensures ProgramReady(a + [s] + b)
    ensures ProgramEnums(a + [s] + b) == ProgramEnums(a) + (if s.ModuleDeclaration? then ModuleEnums(s.body) else []) + ProgramEnums(b)
    ensures ProgramFuncs(a + [s] + b) == ProgramFuncs(a) + (if s.ModuleDeclaration? then ModuleFuncs(s.body) else []) + ProgramFuncs(b)
  {
    assert ProgramReady([s]);
    ProgramAppend(a, [s]);
    ProgramAppend(a + [s], b);
    assert [s][..0] == [];
  }

  /** The comment holds each parameter's entry in declared order. */
  lemma {:induction false} ParamsTextAppend(a: seq<Param>, b: seq<Param>)
    requires ParamsReady(a) && ParamsReady(b)
    ensures ParamsReady(a + b)
    ensures ParamsText(a + b) == ParamsText(a) + ParamsText(b)
  {
    assert forall i :: 0 <= i < |a + b| ==> (a + b)[i] == if i < |a| then a[i] else b[i - |a|];
    if b == [] {
      assert a + b == a;
    } else {
      var n := |b| - 1;
      assert (a + b)[..|a + b| - 1] == a + b[..n];
      assert (a + b)[|a + b| - 1] == b[n];
      assert ParamsReady(b[..n]) by {
        assert forall i :: 0 <= i < n ==> b[..n][i] == b[i];
      }
      ParamsTextAppend(a, b[..n]);
      ConcatAssoc(ParamsText(a), ParamsText(b[..n]), ParamEntry(b[n]));
    }
  }

  /** One parameter appended to ready ones. */
  lemma ParamsTextSnoc(a: seq<Param>, p: Param)
    requires ParamsReady(a) && ParamReady(p)
    ensures ParamsReady(a + [p])
    ensures ParamsText(a + [p]) == ParamsText(a) + ParamEntry(p)
  {
    assert forall k :: 0 <= k < |a| ==> (a + [p])[k] == a[k];
    assert (a + [p])[..|a|] == a;
  }

  /** The parameters before and after parameter `i` are ready. */
  lemma ParamsReadySplit(ps: seq<Param>, i: nat)
    requires ParamsReady(ps) && i < |ps|
    ensures ParamsReady(ps[..i]) && ParamReady(ps[i]) && ParamsReady(ps[i + 1..])
    ensures ps == ps[..i] + [ps[i]] + ps[i + 1..]
  {
    assert forall k :: 0 <= k < i ==> ps[..i][k] == ps[k];
    var b := ps[i + 1..];
    assert forall k :: 0 <= k < |b| ==> b[k] == ps[i + 1 + k];
  }

  /** The entry of parameter `i` sits right after those of the parameters before it. */
  lemma ParamEntryAt(ps: seq<Param>, i: nat)
    requires ParamsReady(ps)
    requires i < |ps|
    ensures ParamsText(ps) == ParamsText(ps[..i]) + ParamEntry(ps[i]) + ParamsText(ps[i + 1..])
  {
    ParamsReadySplit(ps, i);
    ParamsTextSnoc(ps[..i], ps[i]);
    ParamsTextAppend(ps[..i] + [ps[i]], ps[i + 1..]);
  }

  /** A rest parameter is named by its argument behind `...`; for identifiers, which
      cannot begin with a dot, the `...` prefix marks exactly the rest parameters. */
  lemma RestParamName(p: Param)
    requires p.Identifier? ==> p.name == [] || p.name[0] != '.'
    ensures StartsWith(ParamName(p), "...") <==> p.RestElement?
    ensures p.RestElement? ==> ParamName(p)[3..] == p.argumentName
  {
  }

  /** `declare function f(): Promise<void>` in a module gives `returnType` `Promise` and
      the return type parameters `[["TSVoidKeyword"]]`. */
  lemma PromiseVoidRecord(id: string)
    ensures var t := TsType("TSTypeReference", Some("Promise"), Some([TsType("TSVoidKeyword", None, None, [])]), []);
      var f := DeclareFunction(id, Some([]), Some(t), []);
      var program := [ModuleDeclaration([f])];
      && ProgramReady(program)
      && ProgramEnums(program) == []
      && ProgramFuncs(program) == [FuncRecord(id, "Promise", [["TSVoidKeyword"]], "", [])]
  {
    var t := TsType("TSTypeReference", Some("Promise"), Some([TsType("TSVoidKeyword", None, None, [])]), []);
    var f := DeclareFunction(id, Some([]), Some(t), []);
    var body := [f];
    assert body[..0] == [];
    assert ReturnTypeParams(t) == [["TSVoidKeyword"]];
    assert LeadingText([]) + ParamsText([]) == "";
    assert FuncOf(f) == FuncRecord(id, "Promise", [["TSVoidKeyword"]], "", []);
    assert ModuleFuncs(body) == [FuncOf(f)];
    assert ModuleEnums(body) == [];
    var program := [ModuleDeclaration(body)];
    assert program[..0] == [];
    assert ProgramEnums(program) == ModuleEnums(body);
    assert ProgramFuncs(program) == ModuleFuncs(body);
  }
}
