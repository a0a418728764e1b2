/**
 * The helper bodies registered by src/generateShim.js, older versions of those in
 * src/helpers.js: `returnPromise` switches on the function's `returnType` string and has
 * no `post` override, `TsTypeCommentConverter` rewrites only two kind names, and
 * `TsTypeReturnConverter` scans the return type parameter lists, ignoring tokens it does
 * not know instead of throwing.
 */
module ShimHelpers {
  import opened Js
  import opened Descriptors
  import opened BulkReplace
  import ReturnHelpers

  // ---------------------------------------------------------------------------------
  // returnPromise

  /** `returnPromise(context, options)` with `options.fn(this)` as `body`. */
  function ShimReturnPromise(context: string, body: string): string
  {
    if context == "Promise" then "Promise.resolve(" + body + ")" else "{" + body + "}"
  }

  /** Away from `post`, the older helper on the return type `c` gives what the newer one
      gives on the token list `[c]`. */
  lemma ShimReturnPromiseAgrees(context: string, self: FuncData, body: string)
    requires self.id != "post"
    ensures ReturnHelpers.PromiseReady([context], self)
    ensures ShimReturnPromise(context, body) == ReturnHelpers.ReturnPromise([context], self, body)
  {
  }

  /** The body comes back out unchanged, wrapped as a promise exactly for `Promise`, and
      `post` is not treated specially. */
  lemma ShimReturnPromiseRoundTrip(context: string, body: string)
    ensures ReturnHelpers.Unwrapped(ShimReturnPromise(context, body)) == Some((context == "Promise", body))
  {
    var self := FuncData("", "", Undefined);
    ShimReturnPromiseAgrees(context, self, body);
    ReturnHelpers.ReturnPromiseRoundTrip([context], self, body);
  }

  // ---------------------------------------------------------------------------------
  // TsTypeCommentConverter

  const ShimFind: seq<string> := ["TSArrayType", "TSStringKeyword"]
  const ShimReplace: seq<string> := ["array", "string"]

  lemma ShimFindFacts()
    ensures NonEmptyFinds(ShimFind) && Distinct(ShimFind) && |ShimFind| == 2
    ensures forall k :: 0 <= k < |ShimFind| ==> ShimFind[k][0] == 'T'
  {
  }

  /** What `TsTypeCommentConverter(context)` returns. */
  function CommentConverted(s: string): string
  {
    ShimFindFacts();
    BulkReplaced(s, ShimFind, ShimReplace)
  }

  /** `TsTypeCommentConverter(context)`: `replaceBulk` with the two pairs. */
  method TsTypeCommentConverter(context: string) returns (r: string)
    ensures r == CommentConverted(context)
  {
    ShimFindFacts();
    r := ReplaceBulk(context, ShimFind, ShimReplace);
  }

  /** Text without a `T` is copied through, whatever follows it. */
  lemma CommentConvertedCopies(p: string, s: string)
    requires 'T' !in p
    ensures CommentConverted(p + s) == p + CommentConverted(s)
  {
    ShimFindFacts();
    forall i | 0 <= i < |p|
      ensures NoneStartsWith(ShimFind, p[i])
    {
    }
    BulkReplacedPrefix(p, s, ShimFind, ShimReplace);
  }

  /** An array kind becomes `array`. */
  lemma CommentConvertedArray()
    ensures CommentConverted("TSArrayType") == "array"
  {
    ShimFindFacts();
    var a := "TSArrayType";
    BulkReplacedStep(a, ShimFind, ShimReplace, 0, 0);
    assert a[11..] == "";
  }

  /** Unlike `commentBuilder`, the older converter leaves the number keyword as it is. */
  lemma CommentConvertedNumber()
    ensures CommentConverted("TSNumberKeyword") == "TSNumberKeyword"
  {
    ShimFindFacts();
    var n := "TSNumberKeyword";
    assert 'T' !in n[1..];
    forall p | 0 <= p <= |n|
      ensures NoMatchAt(n, ShimFind, p)
    {
      forall k | 0 <= k < |ShimFind|
        ensures !StartsWith(n[p..], ShimFind[k])
      {
        if p == 0 {
          assert n[p..][2] != ShimFind[k][2];
        } else if p < |n| {
          assert n[p..][0] == n[p] && n[p] in n[1..];
        }
      }
    }
    BulkReplacedUnchanged(n, ShimFind, ShimReplace);
  }

  // ---------------------------------------------------------------------------------
  // TsTypeReturnConverter

  /** The value one inner list sets: its first void, null or `JSONObject` token decides,
      the void marker ending the list with nothing set; other tokens are skipped. */
  function InnerValue(rtp: seq<string>): (r: string)
    ensures r == "" || r == "null" || r == "{}"
  {
    if rtp == [] then ""
    else if rtp[0] == "TSVoidKeyword" then ""
    else if rtp[0] == "TSNullKeyword" then "null"
    else if rtp[0] == "JSONObject" then "{}"
    else InnerValue(rtp[1..])
  }

  /** What `TsTypeReturnConverter(context)` returns: the first inner list that sets a
      value decides. */
  function OuterValue(context: seq<seq<string>>): (r: string)
    ensures r == "" || r == "null" || r == "{}"
  {
    if context == [] then ""
    else if InnerValue(context[0]) != "" then InnerValue(context[0])
    else OuterValue(context[1..])
  }

  /** `TsTypeReturnConverter(context)`: nested `some` loops over the lists; it never
      throws. */
  method TsTypeReturnConverter(context: seq<seq<string>>) returns (output: string)
    ensures output == OuterValue(context)
  {
    output := "";
    var i := 0;
    var done := false;
    while i < |context| && !done
      invariant 0 <= i <= |context|
      invariant !done ==> output == "" && OuterValue(context[i..]) == OuterValue(context)
      invariant done ==> output == OuterValue(context)
      decreases |context| - i
    {
      var rtp := context[i];
      var j := 0;
      var stop := false;
      while j < |rtp| && !stop
        invariant 0 <= j <= |rtp|
        invariant !stop ==> output == "" && InnerValue(rtp[j..]) == InnerValue(rtp)
        invariant stop ==> output == InnerValue(rtp)
        decreases |rtp| - j
      {
        var rtpp := rtp[j];
        assert rtp[j..][1..] == rtp[j + 1..];
        if rtpp == "TSVoidKeyword" {
          stop := true;
        } else {
          if rtpp == "TSNullKeyword" {
            output := "null";
          } else if rtpp == "JSONObject" {
            output := "{}";
          }
          stop := output != "";
        }
        j := j + 1;
      }
      assert context[i..][1..] == context[i + 1..];
      done := output != "";
      i := i + 1;
    }
  }

  /** A token that is neither void, null nor `JSONObject`. */
  predicate Ignored(token: string)
  {
    token != "TSVoidKeyword" && token != "TSNullKeyword" && token != "JSONObject"
  }

  /** Ignored tokens at the front of a list change nothing. */
  lemma {:induction false} IgnoredPrefix(pre: seq<string>, rest: seq<string>)
    requires forall i :: 0 <= i < |pre| ==> Ignored(pre[i])
    ensures InnerValue(pre + rest) == InnerValue(rest)
  {
    if pre != [] {
      assert (pre + rest)[0] == pre[0] && Ignored(pre[0]);
      assert (pre + rest)[1..] == pre[1..] + rest;
      assert InnerValue(pre + rest) == InnerValue(pre[1..] + rest);
      IgnoredPrefix(pre[1..], rest);
    } else {
      assert pre + rest == rest;
    }
  }

  /** The void marker ends only its own list: the scan goes on with the next list. */
  lemma VoidEndsInnerList(pre: seq<string>, post: seq<string>, rest: seq<seq<string>>)
    requires forall i :: 0 <= i < |pre| ==> Ignored(pre[i])
    ensures OuterValue([pre + ["TSVoidKeyword"] + post] + rest) == OuterValue(rest)
  {
    IgnoredPrefix(pre, ["TSVoidKeyword"] + post);
    assert pre + ["TSVoidKeyword"] + post == pre + (["TSVoidKeyword"] + post);
    assert ([pre + ["TSVoidKeyword"] + post] + rest)[1..] == rest;
  }

  /** Once a value is set, no later list or token is examined. */
  lemma {:induction false} ValueEndsScan(context: seq<seq<string>>, more: seq<seq<string>>)
    requires OuterValue(context) != ""
    ensures OuterValue(context + more) == OuterValue(context)
  {
    assert (context + more)[0] == context[0];
    if InnerValue(context[0]) == "" {
      assert (context + more)[1..] == context[1..] + more;
      ValueEndsScan(context[1..], more);
    }
  }

  /** A list whose every token is ignored leaves the value to the lists after it. */
  lemma IgnoredList(rtp: seq<string>, rest: seq<seq<string>>)
    requires forall i :: 0 <= i < |rtp| ==> Ignored(rtp[i])
    ensures OuterValue([rtp] + rest) == OuterValue(rest)
  {
    IgnoredPrefix(rtp, []);
    assert rtp + [] == rtp;
    assert ([rtp] + rest)[1..] == rest;
  }

  /** On a list of only `Promise` and terminal tokens, the older converter gives what the
      newer `returnTypeConverter` gives; they differ only in that the newer one throws on
      unknown tokens. */
  lemma {:induction false} AgreesWithReturnTypeConverter(rtp: seq<string>)
    requires forall i :: 0 <= i < |rtp| ==> rtp[i] == "Promise" || ReturnHelpers.IsTerminal(rtp[i])
    ensures ReturnHelpers.ReturnTypeValue(rtp) == Ok(InnerValue(rtp))
  {
    if rtp == [] {
      ReturnHelpers.FirstNonPromiseAt(rtp, 0);
    } else if rtp[0] != "Promise" {
      ReturnHelpers.FirstNonPromiseAt(rtp, 0);
    } else {
      AgreesWithReturnTypeConverter(rtp[1..]);
      var k := ReturnHelpers.FirstNonPromise(rtp[1..]);
      ReturnHelpers.FirstNonPromiseAt(rtp, k + 1);
      if k < |rtp[1..]| {
        assert rtp[k + 1] == rtp[1..][k];
      }
    }
  }

  /** `Promise<void | JSONObject>` gives no value; a void list followed by a null list
      gives `null`. */
  lemma ReturnConverterExamples()
    ensures OuterValue([["TSVoidKeyword", "JSONObject"]]) == ""
    ensures OuterValue([["TSVoidKeyword"], ["TSNullKeyword"]]) == "null"
  {
    VoidEndsInnerList([], ["JSONObject"], []);
    assert [] + ["TSVoidKeyword"] + ["JSONObject"] == ["TSVoidKeyword", "JSONObject"];
    VoidEndsInnerList([], [], [["TSNullKeyword"]]);
    assert [] + ["TSVoidKeyword"] + [] == ["TSVoidKeyword"];
  }
}
