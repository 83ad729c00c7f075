/** Packing retrieved table definitions into a prompt under an approximate
    token budget, where a token is taken to be four characters. */
module Prompt {
  import opened Common

  const Header: string := "\n===Tables \n"
  const Separator: string := "\n\n"

  /** `len(string) / 4`, true division. */
  function ApproxTokenCount(s: string): (r: real)
    ensures r * 4.0 == |s| as real
    ensures r >= 0.0
  {
    |s| as real / 4.0
  }

  /** The test a definition must pass to be appended. */
  predicate Fits(prompt: string, ddl: string, maxTokens: int) {
    ApproxTokenCount(prompt) + ApproxTokenCount(ddl) < maxTokens as real
  }

  /** The division is exact, so the test is a plain character count. */
  lemma FitsIffChars(prompt: string, ddl: string, maxTokens: int)
    ensures Fits(prompt, ddl, maxTokens) <==> |prompt| + |ddl| < 4 * maxTokens
  {
    var a, b := ApproxTokenCount(prompt), ApproxTokenCount(ddl);
    assert (a + b) * 4.0 == (|prompt| + |ddl|) as real;
  }

  /** The loop of `add_ddl_to_prompt`: each definition, in order, is appended
      with a blank line after it when it fits the prompt built so far. */
  function AppendFitting(prompt: string, ddls: seq<string>, maxTokens: int): string
    decreases |ddls|
  {
    if |ddls| == 0 then prompt
    else
      var next := if Fits(prompt, ddls[0], maxTokens) then prompt + ddls[0] + Separator else prompt;
      AppendFitting(next, ddls[1..], maxTokens)
  }

  /** `add_ddl_to_prompt`: the header goes in whenever the list is non-empty,
      even if no definition then fits. */
  function AddDdlToPrompt(prompt: string, ddls: seq<string>, maxTokens: int): (r: string)
    ensures |ddls| == 0 ==> r == prompt
    ensures |ddls| > 0 ==> |r| >= |prompt| + |Header| && r[..|prompt| + |Header|] == prompt + Header
  {
    if |ddls| > 0 then
      AppendFittingExtends(prompt + Header, ddls, maxTokens);
      AppendFitting(prompt + Header, ddls, maxTokens)
    else prompt
  }

  /** The definitions the loop appends, in the order it appends them. */
  function Selected(prompt: string, ddls: seq<string>, maxTokens: int): seq<string>
    decreases |ddls|
  {
    if |ddls| == 0 then []
    else if Fits(prompt, ddls[0], maxTokens) then [ddls[0]] + Selected(prompt + ddls[0] + Separator, ddls[1..], maxTokens)
    else Selected(prompt, ddls[1..], maxTokens)
  }

  /** Each definition followed by a blank line, concatenated. */
  function Blocks(ds: seq<string>): (r: string)
    ensures |ds| > 0 ==> r == ds[0] + Separator + Blocks(ds[1..])
  {
    if |ds| == 0 then [] else ds[0] + Separator + Blocks(ds[1..])
  }

  predicate IsSubsequence<T(==)>(a: seq<T>, b: seq<T>)
    decreases |b|
  {
    |a| == 0 || (|b| > 0 && ((a[0] == b[0] && IsSubsequence(a[1..], b[1..])) || IsSubsequence(a, b[1..])))
  }

  lemma {:induction false} AppendFittingExtends(prompt: string, ddls: seq<string>, maxTokens: int)
    ensures |AppendFitting(prompt, ddls, maxTokens)| >= |prompt|
    ensures AppendFitting(prompt, ddls, maxTokens)[..|prompt|] == prompt
    decreases |ddls|
  {
    if |ddls| > 0 {
      var next := if Fits(prompt, ddls[0], maxTokens) then prompt + ddls[0] + Separator else prompt;
      AppendFittingExtends(next, ddls[1..], maxTokens);
      assert next[..|prompt|] == prompt;
      var r := AppendFitting(next, ddls[1..], maxTokens);
      assert r[..|prompt|] == r[..|next|][..|prompt|];
    }
  }

  /** The packed prompt is the original one followed by the selected
      definitions, each with its blank line, and the selection keeps the
      definitions' order without repeating or inventing any. */
  lemma AppendFittingIsSelection(prompt: string, ddls: seq<string>, maxTokens: int)
    ensures AppendFitting(prompt, ddls, maxTokens) == prompt + Blocks(Selected(prompt, ddls, maxTokens))
    ensures IsSubsequence(Selected(prompt, ddls, maxTokens), ddls)
  {
    AppendFittingIsBlocks(prompt, ddls, maxTokens);
    SelectedIsSubsequence(prompt, ddls, maxTokens);
  }

  lemma {:induction false} AppendFittingIsBlocks(prompt: string, ddls: seq<string>, maxTokens: int)
    ensures AppendFitting(prompt, ddls, maxTokens) == prompt + Blocks(Selected(prompt, ddls, maxTokens))
    decreases |ddls|
  {
    if |ddls| > 0 {
      if Fits(prompt, ddls[0], maxTokens) {
        var next := prompt + ddls[0] + Separator;
        AppendFittingIsBlocks(next, ddls[1..], maxTokens);
        var rest := Selected(next, ddls[1..], maxTokens);
        var sel := [ddls[0]] + rest;
        assert sel[1..] == rest;
        ConcatAssoc(prompt, ddls[0] + Separator, Blocks(rest));
        assert Blocks(sel) == ddls[0] + Separator + Blocks(rest);
      } else {
        AppendFittingIsBlocks(prompt, ddls[1..], maxTokens);
      }
    }
  }

  lemma {:induction false} SelectedIsSubsequence(prompt: string, ddls: seq<string>, maxTokens: int)
    ensures IsSubsequence(Selected(prompt, ddls, maxTokens), ddls)
    decreases |ddls|
  {
    if |ddls| > 0 {
      if Fits(prompt, ddls[0], maxTokens) {
        var next := prompt + ddls[0] + Separator;
        SelectedIsSubsequence(next, ddls[1..], maxTokens);
        var rest := Selected(next, ddls[1..], maxTokens);
        assert ([ddls[0]] + rest)[1..] == rest;
      } else {
        SelectedIsSubsequence(prompt, ddls[1..], maxTokens);
      }
    }
  }

  /** The whole operation against its reference: header, then the selected
      definitions in their original order. */
  lemma AddDdlToPromptIsSelection(prompt: string, ddls: seq<string>, maxTokens: int)
    requires |ddls| > 0
    ensures AddDdlToPrompt(prompt, ddls, maxTokens)
            == prompt + Header + Blocks(Selected(prompt + Header, ddls, maxTokens))
    ensures IsSubsequence(Selected(prompt + Header, ddls, maxTokens), ddls)
  {
    AppendFittingIsSelection(prompt + Header, ddls, maxTokens);
  }

  /** Once anything has been appended the packed prompt stays under the budget
      plus the final blank line; otherwise it comes back unchanged. */
  lemma {:induction false} AppendFittingBound(prompt: string, ddls: seq<string>, maxTokens: int)
    ensures var r := AppendFitting(prompt, ddls, maxTokens);
            r == prompt || |r| < 4 * maxTokens + |Separator|
    decreases |ddls|
  {
    if |ddls| > 0 {
      if Fits(prompt, ddls[0], maxTokens) {
        var next := prompt + ddls[0] + Separator;
        FitsIffChars(prompt, ddls[0], maxTokens);
        AppendFittingBound(next, ddls[1..], maxTokens);
      } else {
        AppendFittingBound(prompt, ddls[1..], maxTokens);
      }
    }
  }

  /** The budget caps the packed prompt whenever the header left room for at
      least one definition. */
  lemma AddDdlToPromptBound(prompt: string, ddls: seq<string>, maxTokens: int)
    ensures var r := AddDdlToPrompt(prompt, ddls, maxTokens);
            r == prompt || r == prompt + Header || |r| < 4 * maxTokens + |Separator|
  {
    if |ddls| > 0 {
      AppendFittingBound(prompt + Header, ddls, maxTokens);
    }
  }

  /** A definition too large to fit is skipped, and a later, smaller one can
      still be appended after it. */
  lemma SkipThenAppend()
    ensures AddDdlToPrompt("", ["xxxxx", "y"], 4) == Header + "y" + Separator
  {
    assert !Fits(Header, "xxxxx", 4) by {
      FitsIffChars(Header, "xxxxx", 4);
    }
    assert Fits(Header, "y", 4) by {
      FitsIffChars(Header, "y", 4);
    }
    assert ["xxxxx", "y"][1..] == ["y"];
    assert "" + Header == Header;
  }
}
