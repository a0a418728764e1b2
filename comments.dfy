/**
 * `commentParamBuilder` and `commentBuilder` (src/helpers.js): the doc comment of a
 * generated function. `commentParamBuilder` walks the parameter descriptors, appending
 * each one's name and kind to a running `comment`; bracketed kinds render their
 * sub-descriptors between `<` and `>`, a union REPLACES everything accumulated so far by
 * its branches joined with `" |"`, and a trailing `"\n*   "` is cut off at the end.
 */
module Comments {
  import opened Js
  import opened Descriptors
  import opened BulkReplace

  /** What handling one element does to the running `comment`. */
  datatype Edit = Append(text: string) | Overwrite(text: string)

  /** The line break `commentParamBuilder` puts after a kind-less group, and cuts off at
      the end. */
  const Separator: string := "\n*   "

  /** The running `comment` after one edit. */
  function ApplyEdit(acc: string, e: Edit): string
  {
    match e
    case Append(t) => acc + t
    case Overwrite(t) => t
  }

  /** The running `comment` after the given edits, starting from `acc`. */
  function ApplyEdits(acc: string, edits: seq<Edit>): string
  {
    if edits == [] then acc else ApplyEdit(ApplyEdits(acc, edits[..|edits| - 1]), edits[|edits| - 1])
  }

  /** The finished comment: a trailing line separator is cut off, anything else is kept. */
  function Finish(c: string): (r: string)
    ensures EndsWith(c, Separator) ==> r + Separator == c
    ensures !EndsWith(c, Separator) ==> r == c
  {
    if EndsWith(c, Separator) then c[..|c| - 5] else c
  }

  /** `commentParamBuilder` reads `subParams` of every descriptor with a non-empty kind it
      reaches (`.map`, or `.forEach` in the recursive call), so those must be defined. */
  predicate Commentable(d: TypeDesc)
  {
    && (d.kind != "" ==> d.subParams.Defined?)
    && (d.subParams.Defined? ==> forall i :: 0 <= i < |d.subParams.items| ==> Commentable(d.subParams.items[i]))
  }

  predicate AllCommentable(s: seq<TypeDesc>)
  {
    forall i :: 0 <= i < |s| ==> Commentable(s[i])
  }

  /** The name an element contributes: its `name` unless undefined or empty. */
  function NamePart(d: TypeDesc): string
  {
    if d.name.Some? && d.name.value != "" then d.name.value else ""
  }

  /** The kinds rendered as `Kind<sub, sub>`. */
  predicate IsBracketed(kind: string)
  {
    kind == "TSArrayType" || kind == "Record" || kind == "Array"
  }

  /** The comment of each branch of a union, each built on its own as a one-element
      parameter list. */
  function BranchComments(d: TypeDesc): (r: seq<string>)
    requires Commentable(d) && d.subParams.Defined?
    ensures |r| == |d.subParams.items|
    decreases d, 0
  {
    seq(|d.subParams.items|, i requires 0 <= i < |d.subParams.items| => SingleComment(d.subParams.items[i]))
  }

  /** The edits of the sub-descriptors of `d`, one per element. */
  function ChildEdits(d: TypeDesc): (r: seq<Edit>)
    requires Commentable(d) && d.subParams.Defined?
    ensures |r| == |d.subParams.items|
    decreases d, 0
  {
    seq(|d.subParams.items|, i requires 0 <= i < |d.subParams.items| => ElementEdit(d.subParams.items[i]))
  }

  /** The effect of one element of the `forEach` loop on `comment`. */
  function ElementEdit(d: TypeDesc): Edit
    requires Commentable(d)
    decreases d, 1
  {
    if d.kind != "" then
      if IsBracketed(d.kind) then
        Append(NamePart(d) + " " + d.kind + "<" + Trim(Join(BranchComments(d), ", ")) + ">")
      else if d.kind == "TSUnionType" then
        Overwrite(Trim(Join(BranchComments(d), " |")))
      else
        Append(NamePart(d) + " " + d.kind + Finish(ApplyEdits("", ChildEdits(d))))
    else if d.subParams.Defined? && |d.subParams.items| > 0 then
      Append(NamePart(d) + Finish(ApplyEdits("", ChildEdits(d))) + Separator)
    else
      Append(NamePart(d))
  }

  /** `commentParamBuilder([d])`. */
  function SingleComment(d: TypeDesc): string
    requires Commentable(d)
    decreases d, 2
  {
    Finish(ApplyEdits("", [ElementEdit(d)]))
  }

  function Edits(params: seq<TypeDesc>): (r: seq<Edit>)
    requires AllCommentable(params)
    ensures |r| == |params|
  {
    seq(|params|, i requires 0 <= i < |params| => ElementEdit(params[i]))
  }

  /** What `commentParamBuilder(params)` returns. */
  function ParamComment(params: seq<TypeDesc>): string
    requires AllCommentable(params)
  {
    Finish(ApplyEdits("", Edits(params)))
  }

  lemma {:induction false} ChildEditsAreEdits(d: TypeDesc)
    requires Commentable(d) && d.subParams.Defined?
    ensures ChildEdits(d) == Edits(d.subParams.items)
  {
  }

  lemma {:induction false} SingleIsParamComment(d: TypeDesc)
    requires Commentable(d)
    ensures SingleComment(d) == ParamComment([d])
  {
    assert Edits([d]) == [ElementEdit(d)];
  }

  /** The loop that builds the comment of each branch of a union, each on its own as a
      one-element parameter list. */
  method SubComments(subs: seq<TypeDesc>) returns (parts: seq<string>)
    requires AllCommentable(subs)
    ensures |parts| == |subs|
    ensures forall k :: 0 <= k < |subs| ==> parts[k] == SingleComment(subs[k])
    decreases SizeAll(subs), 3
  {
    parts := [];
    for j := 0 to |subs|
      invariant |parts| == j
      invariant forall k :: 0 <= k < j ==> parts[k] == SingleComment(subs[k])
    {
      var d := subs[j];
      assert SizeAll([d]) <= SizeAll(subs) by {
        SizeAllBound(subs);
        SizeAllSingleton(d);
      }
      assert AllCommentable([d]) by {
        assert [d][0] == d;
      }
      var p := CommentParamBuilder([d]);
      assert p == SingleComment(d) by {
        SingleIsParamComment(d);
      }
      parts := parts + [p];
    }
  }

  /** One round of the `forEach` loop of `commentParamBuilder`, from `comment` to `next`. */
  method AppendElement(comment: string, element: TypeDesc) returns (next: string)
    requires Commentable(element)
    ensures next == ApplyEdit(comment, ElementEdit(element))
    decreases Size(element), 1
  {
    ChildSmaller(element);
    ghost var name := NamePart(element);
    next := comment;
    if element.name.Some? && element.name.value != "" {
      next := next + element.name.value;
    }
    assert next == comment + name;
    if element.kind != "" {
      var subs := element.subParams.items;
      next := next + " " + element.kind;
      ConcatAssoc(comment, name, " ");
      ConcatAssoc(comment, name + " ", element.kind);
      ghost var head := name + " " + element.kind;
      assert next == comment + head;
      if IsBracketed(element.kind) {
        next := next + "<";
        var parts := SubComments(subs);
        assert parts == BranchComments(element);
        var inner := Trim(Join(parts, ", "));
        next := next + inner;
        next := next + ">";
        ConcatAssoc(comment, head, "<");
        ConcatAssoc(comment, head + "<", inner);
        ConcatAssoc(comment, head + "<" + inner, ">");
      } else if element.kind == "TSUnionType" {
        var parts := SubComments(subs);
        assert parts == BranchComments(element);
        next := Trim(Join(parts, " |"));
      } else {
        var inner := CommentParamBuilder(subs);
        ChildEditsAreEdits(element);
        next := next + inner;
        ConcatAssoc(comment, head, inner);
      }
    } else if element.subParams.Defined? && |element.subParams.items| > 0 {
      var subs := element.subParams.items;
      var inner := CommentParamBuilder(subs);
      ChildEditsAreEdits(element);
      next := next + inner + Separator;
      ConcatAssoc(comment, name, inner);
      ConcatAssoc(comment, name + inner, Separator);
    }
  }

  /** `commentParamBuilder(params)`. */
  method CommentParamBuilder(params: seq<TypeDesc>) returns (comment: string)
    requires AllCommentable(params)
    ensures comment == ParamComment(params)
    decreases SizeAll(params), 2
  {
    comment := "";
    ghost var edits := Edits(params);
    for i := 0 to |params|
      invariant comment == ApplyEdits("", edits[..i])
    {
      SizeAllBound(params);
      comment := AppendElement(comment, params[i]);
      assert edits[..i + 1][..i] == edits[..i];
    }
    assert edits[..|params|] == edits;
    if EndsWith(comment, Separator) {
      comment := comment[..|comment| - 5];
    }
  }

  /** Applying a sequence of edits in two parts. */
  lemma {:induction false} ApplyEditsAppend(acc: string, a: seq<Edit>, b: seq<Edit>)
    ensures ApplyEdits(acc, a + b) == ApplyEdits(ApplyEdits(acc, a), b)
    decreases |b|
  {
    if b == [] {
      assert a + b == a;
    } else {
      var b' := b[..|b| - 1];
      assert (a + b)[..|a + b| - 1] == a + b';
      ApplyEditsAppend(acc, a, b');
    }
  }

  /** Once an overwrite comes first, what was accumulated before no longer matters. */
  lemma {:induction false} OverwriteForgets(acc: string, acc': string, edits: seq<Edit>)
    requires edits != [] && edits[0].Overwrite?
    ensures ApplyEdits(acc, edits) == ApplyEdits(acc', edits)
    decreases |edits|
  {
    if |edits| > 1 {
      OverwriteForgets(acc, acc', edits[..|edits| - 1]);
    }
  }

  /** `Finish` cuts nothing from a text that does not end in a space. */
  lemma FinishKeeps(t: string)
    requires t == [] || t[|t| - 1] != ' '
    ensures Finish(t) == t
  {
    if |t| >= |Separator| {
      assert t[|t| - |Separator|..][4] == t[|t| - 1];
    }
  }

  /** The edits of a list split like the list. */
  lemma EditsAppend(a: seq<TypeDesc>, b: seq<TypeDesc>)
    requires AllCommentable(a) && AllCommentable(b)
    ensures AllCommentable(a + b)
    ensures Edits(a + b) == Edits(a) + Edits(b)
  {
    assert forall i :: 0 <= i < |b| ==> (a + b)[|a| + i] == b[i];
    assert forall i :: 0 <= i < |a| ==> (a + b)[i] == a[i];
  }

  /** A union element throws away the comment of every parameter before it. */
  lemma {:induction false} UnionDiscardsEarlier(pre: seq<TypeDesc>, u: TypeDesc, post: seq<TypeDesc>)
    requires AllCommentable(pre) && Commentable(u) && AllCommentable(post)
    requires u.kind == "TSUnionType"
    ensures AllCommentable(pre + [u] + post) && AllCommentable([u] + post)
    ensures ParamComment(pre + [u] + post) == ParamComment([u] + post)
  {
    EditsAppend([u], post);
    EditsAppend(pre, [u] + post);
    assert pre + [u] + post == pre + ([u] + post);
    var later := Edits([u] + post);
    ApplyEditsAppend("", Edits(pre), later);
    assert later[0] == ElementEdit(u);
    OverwriteForgets(ApplyEdits("", Edits(pre)), "", later);
  }

  /** A union that comes last gives exactly its branches joined with `" |"`: its own name
      and all earlier parameters are dropped, and no separator is cut. */
  lemma {:induction false} UnionComment(pre: seq<TypeDesc>, u: TypeDesc)
    requires AllCommentable(pre) && Commentable(u)
    requires u.kind == "TSUnionType"
    ensures AllCommentable(pre + [u])
    ensures ParamComment(pre + [u]) == Trim(Join(BranchComments(u), " |"))
  {
    UnionDiscardsEarlier(pre, u, []);
    assert pre + [u] + [] == pre + [u];
    assert [u] + [] == [u];
    assert Edits([u]) == [ElementEdit(u)];
    FinishKeeps(Trim(Join(BranchComments(u), " |")));
  }

  /** A descriptor drawn as just its name and kind: a non-empty kind that is neither
      bracketed nor a union, with no sub-descriptors. */
  predicate IsLeaf(d: TypeDesc)
  {
    d.kind != "" && !IsBracketed(d.kind) && d.kind != "TSUnionType" && d.subParams == Defined([])
  }

  /** The text a leaf contributes. */
  function LeafText(d: TypeDesc): string
  {
    NamePart(d) + " " + d.kind
  }

  /** The comment of a list of leaves is their names and kinds run together, with nothing
      in between. */
  lemma {:induction false} LeafComments(params: seq<TypeDesc>)
    requires forall i :: 0 <= i < |params| ==> IsLeaf(params[i]) && params[i].kind[|params[i].kind| - 1] != ' '
    ensures AllCommentable(params)
    ensures ParamComment(params) == Concat(seq(|params|, i requires 0 <= i < |params| => LeafText(params[i])))
  {
    LeafEdits(params);
    var c := ApplyEdits("", Edits(params));
    if params != [] {
      var last := params[|params| - 1];
      assert c == ApplyEdits("", Edits(params)[..|params| - 1]) + LeafText(last);
      assert c[|c| - 1] == last.kind[|last.kind| - 1];
    }
    FinishKeeps(c);
  }

  lemma {:induction false} LeafEdits(params: seq<TypeDesc>)
    requires forall i :: 0 <= i < |params| ==> IsLeaf(params[i])
    ensures AllCommentable(params)
    ensures ApplyEdits("", Edits(params)) == Concat(seq(|params|, i requires 0 <= i < |params| => LeafText(params[i])))
    decreases |params|
  {
    if params != [] {
      var init := params[..|params| - 1];
      var last := params[|params| - 1];
      LeafEdits(init);
      assert Edits(params)[..|params| - 1] == Edits(init);
      assert ChildEdits(last) == [];
      assert ElementEdit(last) == Append(LeafText(last) + Finish(""));
      var texts := seq(|params|, i requires 0 <= i < |params| => LeafText(params[i]));
      assert texts[..|params| - 1] == seq(|init|, i requires 0 <= i < |init| => LeafText(init[i]));
    }
  }

  /** A kind-less descriptor groups its sub-descriptors: the separator put after them is
      cut off again when the group comes last. */
  lemma {:induction false} KindlessGroup(d: TypeDesc)
    requires Commentable(d)
    requires d.kind == "" && d.subParams.Defined? && |d.subParams.items| > 0
    ensures AllCommentable(d.subParams.items)
    ensures ParamComment([d]) == NamePart(d) + ParamComment(d.subParams.items)
  {
    ChildEditsAreEdits(d);
    assert Edits([d]) == [ElementEdit(d)];
    var c := NamePart(d) + ParamComment(d.subParams.items) + Separator;
    assert ApplyEdits("", [ElementEdit(d)]) == "" + c;
    assert "" + c == c;
    assert c[|c| - 5..] == Separator;
  }

  /** A bracketed descriptor on its own is drawn `name kind<sub, sub>`, each sub-descriptor
      commented on its own, the list trimmed, and nothing cut. */
  lemma {:induction false} BracketedComment(d: TypeDesc)
    requires Commentable(d)
    requires d.kind != "" && IsBracketed(d.kind)
    ensures forall i :: 0 <= i < |d.subParams.items| ==>
      AllCommentable([d.subParams.items[i]]) && BranchComments(d)[i] == ParamComment([d.subParams.items[i]])
    ensures ParamComment([d]) == NamePart(d) + " " + d.kind + "<" + Trim(Join(BranchComments(d), ", ")) + ">"
  {
    var subs := d.subParams.items;
    forall i | 0 <= i < |subs|
      ensures AllCommentable([subs[i]]) && BranchComments(d)[i] == ParamComment([subs[i]])
    {
      SingleIsParamComment(subs[i]);
    }
    var t := NamePart(d) + " " + d.kind + "<" + Trim(Join(BranchComments(d), ", ")) + ">";
    assert Edits([d]) == [Append(t)];
    assert ApplyEdits("", [Append(t)]) == "" + t == t;
    FinishKeeps(t);
  }

  /** The find and replace lists of `commentBuilder`. */
  const CommentFind: seq<string> := ["TSArrayType", "TSStringKeyword", "TSNumberKeyword", "TSUnionType"]
  const CommentReplace: seq<string> := ["array", "string", "number", "union"]

  /** Every find string of `commentBuilder` is non-empty and starts with `T`, and none
      holds a line break. */
  lemma CommentFindFacts()
    ensures NonEmptyFinds(CommentFind) && |CommentFind| == 4
    ensures forall k :: 0 <= k < |CommentFind| ==> CommentFind[k][0] == 'T' && '\n' !in CommentFind[k]
    ensures forall k :: 0 <= k < |CommentFind| ==> |CommentFind[k]| >= 11
  {
  }

  /** `replaceBulk(s, findArray, replaceArray)` with the lists of `commentBuilder`. */
  function KindsReplaced(s: string): string
  {
    CommentFindFacts();
    BulkReplaced(s, CommentFind, CommentReplace)
  }

  /** Text without a `T` is copied by the replace of `commentBuilder`. */
  lemma KindsReplacedCopies(p: string, s: string)
    requires 'T' !in p
    ensures KindsReplaced(p + s) == p + KindsReplaced(s)
  {
    CommentFindFacts();
    forall i | 0 <= i < |p|
      ensures NoneStartsWith(CommentFind, p[i])
    {
    }
    BulkReplacedPrefix(p, s, CommentFind, CommentReplace);
  }

  /** The replace of `commentBuilder` works on either side of a line break separately. */
  lemma KindsReplacedSplit(x: string, y: string)
    requires y != [] && y[0] == '\n'
    ensures KindsReplaced(x + y) == KindsReplaced(x) + KindsReplaced(y)
  {
    CommentFindFacts();
    BulkReplacedSplit(x, y, CommentFind, CommentReplace);
  }

  /** A text shorter than every find string of `commentBuilder` is copied. */
  lemma KindsReplacedShort(s: string)
    requires |s| < 11
    ensures KindsReplaced(s) == s
  {
    CommentFindFacts();
    if s != [] {
      forall p | 0 <= p <= |s|
        ensures NoMatchAt(s, CommentFind, p)
      {
      }
      BulkReplacedUnchanged(s, CommentFind, CommentReplace);
    }
  }

  /** A text holding none of the kind names is copied. */
  lemma KindsReplacedUnchanged(s: string)
    requires NoOccurrence(s, CommentFind)
    ensures KindsReplaced(s) == s
  {
    CommentFindFacts();
    if s != [] {
      BulkReplacedUnchanged(s, CommentFind, CommentReplace);
    }
  }

  /** The heading `commentBuilder` puts before the parameter comment. */
  const TypesHeading: string := "\n* Types: "

  /** The documentation text of a function: what follows the last `*` of its comment,
      with white space trimmed from both ends. */
  function DocText(self: FuncData): (r: string)
    ensures '*' !in r
  {
    var seg := LastSegment(self.comment, '*');
    var r := Trim(seg);
    assert forall c :: c in r ==> c in seg;
    r
  }

  /** Whether the function has a parameter list holding at least one parameter. */
  predicate HasParams(self: FuncData)
  {
    self.params.Defined? && |self.params.items| > 0
  }

  /** `commentParamBuilder` may be run on the function's parameters when they are shown. */
  predicate Describable(self: FuncData)
  {
    HasParams(self) ==> AllCommentable(self.params.items)
  }

  /** The text after the doc text: the heading and the parameter comment, when shown. */
  function TypesBlock(self: FuncData): string
    requires Describable(self)
  {
    if HasParams(self) then TypesHeading + (Separator + ParamComment(self.params.items)) else ""
  }

  /** The comment `commentBuilder` assembles before the replace. */
  function RawComment(self: FuncData): string
    requires Describable(self)
  {
    "* " + DocText(self) + TypesBlock(self)
  }

  /** What `commentBuilder(context)` returns. */
  function DocComment(self: FuncData): string
    requires Describable(self)
  {
    KindsReplaced(RawComment(self))
  }

  /** `commentBuilder(context)`. */
  method CommentBuilder(self: FuncData) returns (r: string)
    requires Describable(self)
    ensures r == DocComment(self)
  {
    var comment := RawCommentBuilder(self);
    CommentFindFacts();
    r := ReplaceBulk(comment, CommentFind, CommentReplace);
  }

  /** The statements of `commentBuilder` before the replace. */
  method RawCommentBuilder(self: FuncData) returns (comment: string)
    requires Describable(self)
    ensures comment == RawComment(self)
  {
    comment := "* " + Trim(LastSegment(self.comment, '*'));
    if self.params.Defined? && |self.params.items| > 0 {
      comment := comment + TypesHeading;
      var params := CommentParamBuilder(self.params.items);
      comment := comment + (Separator + params);
      RawCommentWith(self, params);
    } else {
      RawCommentWithout(self);
    }
  }

  /** The raw comment of a function with parameters, as `commentBuilder` appends it. */
  lemma RawCommentWith(self: FuncData, params: string)
    requires HasParams(self) && Describable(self) && params == ParamComment(self.params.items)
    ensures RawComment(self) == "* " + Trim(LastSegment(self.comment, '*')) + TypesHeading + (Separator + params)
  {
    assert DocText(self) == Trim(LastSegment(self.comment, '*'));
    ConcatAssoc("* " + DocText(self), TypesHeading, Separator + params);
  }

  /** The raw comment of a function without parameters. */
  lemma RawCommentWithout(self: FuncData)
    requires !HasParams(self)
    ensures RawComment(self) == "* " + Trim(LastSegment(self.comment, '*'))
  {
    assert DocText(self) == Trim(LastSegment(self.comment, '*'));
    assert "* " + DocText(self) + "" == "* " + DocText(self);
  }

  /** The types block keeps its heading and has the kind names replaced in the parameter
      comment only. */
  lemma KindsReplacedBlock(pc: string)
    ensures KindsReplaced(TypesHeading + (Separator + pc)) == TypesHeading + Separator + KindsReplaced(pc)
  {
    var rest := Separator + pc;
    assert rest[0] == '\n';
    KindsReplacedSplit(TypesHeading, rest);
    KindsReplacedShort(TypesHeading);
    assert 'T' !in Separator by {
      assert forall i :: 0 <= i < |Separator| ==> Separator[i] in "\n* ";
    }
    KindsReplacedCopies(Separator, pc);
    ConcatAssoc(TypesHeading, Separator, KindsReplaced(pc));
  }

  /** The replace of `commentBuilder` leaves the leading `"* "` alone and works on the
      doc text and on a following block that starts with a line break separately. */
  lemma KindsReplacedParts(text: string, block: string)
    requires block == [] || block[0] == '\n'
    ensures KindsReplaced("* " + text + block) == "* " + KindsReplaced(text) + KindsReplaced(block)
  {
    ConcatAssoc("* ", text, block);
    KindsReplacedCopies("* ", text + block);
    if block == [] {
      assert text + block == text;
      assert KindsReplaced(block) == [];
    } else {
      KindsReplacedSplit(text, block);
    }
    ConcatAssoc("* ", KindsReplaced(text), KindsReplaced(block));
  }

  /** The doc comment, part by part. */
  lemma DocCommentParts(self: FuncData)
    requires Describable(self)
    ensures DocComment(self) == "* " + KindsReplaced(DocText(self)) + KindsReplaced(TypesBlock(self))
  {
    assert DocComment(self) == KindsReplaced("* " + DocText(self) + TypesBlock(self));
    KindsReplacedParts(DocText(self), TypesBlock(self));
  }

  /** Without parameters the doc comment is `"* "` and the trimmed text after the last
      `*`, with the kind names replaced. */
  lemma DocCommentWithoutParams(self: FuncData)
    requires !HasParams(self)
    ensures DocComment(self) == "* " + KindsReplaced(DocText(self))
  {
    DocCommentParts(self);
    assert KindsReplaced(TypesBlock(self)) == KindsReplaced([]);
    assert "* " + KindsReplaced(DocText(self)) + [] == "* " + KindsReplaced(DocText(self));
  }

  /** The replace of a doc comment with a types block, part by part. */
  lemma KindsReplacedWithBlock(text: string, pc: string)
    ensures KindsReplaced("* " + text + (TypesHeading + (Separator + pc)))
      == "* " + KindsReplaced(text) + TypesHeading + Separator + KindsReplaced(pc)
  {
    var block := TypesHeading + (Separator + pc);
    var head, tail := "* " + KindsReplaced(text), KindsReplaced(pc);
    assert block[0] == '\n';
    KindsReplacedParts(text, block);
    KindsReplacedBlock(pc);
    assert KindsReplaced("* " + text + block) == head + (TypesHeading + Separator + tail);
    ConcatAssoc(head, TypesHeading + Separator, tail);
    ConcatAssoc(head, TypesHeading, Separator);
  }

  /** With parameters the types heading and the parameter comment follow; the kind names
      are replaced inside each part separately. */
  lemma DocCommentWithParams(self: FuncData)
    requires HasParams(self) && Describable(self)
    ensures DocComment(self) == "* " + KindsReplaced(DocText(self))
      + TypesHeading + Separator + KindsReplaced(ParamComment(self.params.items))
  {
    var pc := ParamComment(self.params.items);
    assert DocComment(self) == KindsReplaced("* " + DocText(self) + (TypesHeading + (Separator + pc)));
    KindsReplacedWithBlock(DocText(self), pc);
  }

  /** The doc comment starts with `"* "`, and with `"* "` and the doc text itself when that
      names no kind. */
  lemma DocCommentStart(self: FuncData)
    requires Describable(self)
    ensures StartsWith(DocComment(self), "* ")
    ensures NoOccurrence(DocText(self), CommentFind) ==> StartsWith(DocComment(self), "* " + DocText(self))
  {
    DocCommentParts(self);
    var r := KindsReplaced(DocText(self));
    var rest := KindsReplaced(TypesBlock(self));
    ConcatAssoc("* ", r, rest);
    assert ("* " + (r + rest))[..2] == "* ";
    if NoOccurrence(DocText(self), CommentFind) {
      KindsReplacedUnchanged(DocText(self));
      assert ("* " + r + rest)[..|"* " + r|] == "* " + r;
    }
  }
}
