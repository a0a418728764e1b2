/**
 * `returnPromise` and `returnTypeConverter` (src/helpers.js): the body of a generated
 * function. `returnTypeConverter` reads the flat list of return-type tokens and gives the
 * value the mock returns (`""`, `"null"` or `"{}"`); `returnPromise` wraps that body as a
 * resolved promise or as a block, except for `post`, which logs its first parameter.
 */
module ReturnHelpers {
  import opened Js
  import opened Descriptors

  /** The `post` override applies: the first token is `Promise` and the function is `post`. */
  predicate PostOverride(context: seq<string>, self: FuncData)
  {
    |context| > 0 && context[0] == "Promise" && self.id == "post"
  }

  /** `this.params[0].name` is read under the override, so `params` must hold an element. */
  predicate PromiseReady(context: seq<string>, self: FuncData)
  {
    PostOverride(context, self) ==> self.params.Defined? && |self.params.items| > 0
  }

  /** `returnPromise(context, options)` with `this` as `self` and `options.fn(this)` as
      `body`. An empty `context` has `context[0]` undefined, which is not `"Promise"`. */
  function ReturnPromise(context: seq<string>, self: FuncData, body: string): (r: string)
    requires PromiseReady(context, self)
  {
    if |context| > 0 && context[0] == "Promise" then
      if self.id != "post" then "Promise.resolve(" + body + ")"
      else "Promise.resolve(console.log(" + Show(self.params.items[0].name) + "))"
    else "{" + body + "}"
  }

  const PromisePrefix: string := "Promise.resolve("

  /** The body inside a wrapped result, and whether it was wrapped as a promise. */
  function Unwrapped(r: string): (u: Option<(bool, string)>)
  {
    if |r| >= |PromisePrefix| + 1 && r[..|PromisePrefix|] == PromisePrefix && r[|r| - 1] == ')' then
      Some((true, r[|PromisePrefix|..|r| - 1]))
    else if |r| >= 2 && r[0] == '{' && r[|r| - 1] == '}' then
      Some((false, r[1..|r| - 1]))
    else None
  }

  /** Outside the override the body comes back out of the wrapped result unchanged, wrapped
      as a promise exactly when the first token is `Promise`. */
  lemma ReturnPromiseRoundTrip(context: seq<string>, self: FuncData, body: string)
    requires !PostOverride(context, self)
    ensures Unwrapped(ReturnPromise(context, self, body)) == Some((|context| > 0 && context[0] == "Promise", body))
  {
    var r := ReturnPromise(context, self, body);
    if |context| > 0 && context[0] == "Promise" {
      assert r[..|PromisePrefix|] == PromisePrefix;
      assert r[|PromisePrefix|..|r| - 1] == body;
    } else {
      assert r[0] == '{';
      assert r[1..|r| - 1] == body;
    }
  }

  /** Under the override the body is ignored: the result logs the first parameter's name. */
  lemma PostIgnoresBody(context: seq<string>, self: FuncData, body: string, other: string)
    requires PostOverride(context, self) && PromiseReady(context, self)
    ensures ReturnPromise(context, self, body) == ReturnPromise(context, self, other)
    ensures ReturnPromise(context, self, body)
      == PromisePrefix + "console.log(" + Show(self.params.items[0].name) + "))"
  {
  }

  /** The tokens `returnTypeConverter` knows besides `Promise`, which it skips. */
  predicate IsTerminal(token: string)
  {
    token == "TSVoidKeyword" || token == "TSNullKeyword" || token == "JSONObject"
  }

  /** The index of the first token that is not `Promise`, or `|context|`. */
  function FirstNonPromise(context: seq<string>): (k: nat)
    ensures k <= |context|
    ensures forall j :: 0 <= j < k ==> context[j] == "Promise"
    ensures k < |context| ==> context[k] != "Promise"
  {
    if context == [] then 0
    else if context[0] != "Promise" then 0
    else 1 + FirstNonPromise(context[1..])
  }

  /** The error thrown for a return type token list with an unknown token; the message
      shows the whole list, its tokens joined with commas. */
  function UnknownReturnType(context: seq<string>): Error
  {
    Thrown("Return type " + Join(context, ",") + " unknown! Please create github issue")
  }

  /** The value a terminal token gives. */
  function TerminalValue(token: string): string
    requires IsTerminal(token)
  {
    if token == "TSNullKeyword" then "null"
    else if token == "JSONObject" then "{}"
    else ""
  }

  /** What `returnTypeConverter(context)` returns or throws. */
  function ReturnTypeValue(context: seq<string>): (r: Result<string>)
    ensures r.Ok? ==> r.value == "" || r.value == "null" || r.value == "{}"
  {
    var k := FirstNonPromise(context);
    if k == |context| then Ok("")
    else if IsTerminal(context[k]) then Ok(TerminalValue(context[k]))
    else Err(UnknownReturnType(context))
  }

  /** `returnTypeConverter(context)`: the `some` loop stops at the void marker or as soon
      as `output` is set, and throws on any token it does not know. */
  method ReturnTypeConverter(context: seq<string>) returns (r: Result<string>)
    ensures r == ReturnTypeValue(context)
  {
    var output := "";
    var i := 0;
    var stop := false;
    while i < |context| && !stop
      invariant 0 <= i <= |context|
      invariant !stop ==> output == "" && forall j :: 0 <= j < i ==> context[j] == "Promise"
      invariant stop ==>
        0 < i && FirstNonPromise(context) == i - 1 && IsTerminal(context[i - 1]) && output == TerminalValue(context[i - 1])
      decreases |context| - i
    {
      var rtp := context[i];
      if rtp == "TSVoidKeyword" {
        stop := true;
      } else {
        if rtp == "TSNullKeyword" {
          output := "null";
        } else if rtp == "JSONObject" {
          output := "{}";
        } else if rtp == "Promise" {
        } else {
          FirstNonPromiseAt(context, i);
          return Err(UnknownReturnType(context));
        }
        stop := output != "";
      }
      if stop {
        FirstNonPromiseAt(context, i);
      }
      i := i + 1;
    }
    if !stop {
      FirstNonPromiseAt(context, i);
    }
    r := Ok(output);
  }

  /** `FirstNonPromise` is the first index whose token is not `Promise`. */
  lemma {:induction false} FirstNonPromiseAt(context: seq<string>, i: nat)
    requires i <= |context|
    requires forall j :: 0 <= j < i ==> context[j] == "Promise"
    requires i < |context| ==> context[i] != "Promise"
    ensures FirstNonPromise(context) == i
  {
    if i > 0 {
      assert context[0] == "Promise";
      FirstNonPromiseAt(context[1..], i - 1);
    }
  }

  /** The first token that is not `Promise` decides: the void marker gives `""`, the null
      marker `"null"`, `JSONObject` `"{}"`, and all-`Promise` lists give `""`. */
  lemma ReturnTypeDecided(context: seq<string>, k: nat)
    requires k <= |context|
    requires forall j :: 0 <= j < k ==> context[j] == "Promise"
    requires k < |context| ==> context[k] != "Promise"
    ensures k == |context| ==> ReturnTypeValue(context) == Ok("")
    ensures k < |context| && context[k] == "TSVoidKeyword" ==> ReturnTypeValue(context) == Ok("")
    ensures k < |context| && context[k] == "TSNullKeyword" ==> ReturnTypeValue(context) == Ok("null")
    ensures k < |context| && context[k] == "JSONObject" ==> ReturnTypeValue(context) == Ok("{}")
  {
    FirstNonPromiseAt(context, k);
  }

  /** An error is thrown exactly when some token that is neither `Promise` nor terminal comes
      before every terminal token; the error names the whole list. */
  lemma ReturnTypeErrorIff(context: seq<string>)
    ensures ReturnTypeValue(context).Err? <==>
      exists k :: 0 <= k < |context| && (forall j :: 0 <= j < k ==> context[j] == "Promise")
        && context[k] != "Promise" && !IsTerminal(context[k])
    ensures ReturnTypeValue(context).Err? ==> ReturnTypeValue(context).error == UnknownReturnType(context)
  {
    var k := FirstNonPromise(context);
    if ReturnTypeValue(context).Err? {
      assert 0 <= k < |context| && (forall j :: 0 <= j < k ==> context[j] == "Promise")
        && context[k] != "Promise" && !IsTerminal(context[k]);
    }
    if exists k' :: 0 <= k' < |context| && (forall j :: 0 <= j < k' ==> context[j] == "Promise")
        && context[k'] != "Promise" && !IsTerminal(context[k'])
    {
      var k' :| 0 <= k' < |context| && (forall j :: 0 <= j < k' ==> context[j] == "Promise")
        && context[k'] != "Promise" && !IsTerminal(context[k']);
      FirstNonPromiseAt(context, k');
    }
  }

  /** Tokens after the deciding terminal token are never examined. */
  lemma ReturnTypeIgnoresTail(context: seq<string>, rest: seq<string>)
    requires FirstNonPromise(context) < |context| && IsTerminal(context[FirstNonPromise(context)])
    ensures ReturnTypeValue(context + rest) == ReturnTypeValue(context)
  {
    var k := FirstNonPromise(context);
    assert forall j :: 0 <= j < k ==> (context + rest)[j] == context[j];
    FirstNonPromiseAt(context + rest, k);
  }

  /** `Promise<void>` gives no value and `Promise<JSONObject>` an empty object. */
  lemma ReturnTypeExamples()
    ensures ReturnTypeValue(["Promise", "TSVoidKeyword"]) == Ok("")
    ensures ReturnTypeValue(["Promise", "JSONObject"]) == Ok("{}")
    ensures ReturnTypeValue(["Promise", "TSNullKeyword"]) == Ok("null")
  {
    ReturnTypeDecided(["Promise", "TSVoidKeyword"], 1);
    ReturnTypeDecided(["Promise", "JSONObject"], 1);
    ReturnTypeDecided(["Promise", "TSNullKeyword"], 1);
  }
}
