/**
 * The Rust stub `process_input` (src/main.rs): every XPath is reported as
 * successful on every URL, without looking at any document.
 */
module RustStub {
  import opened Shapes

  /** `XpathResult`: the URLs on which an XPath succeeded and failed. */
  datatype XpathResult = XpathResult(successful: seq<string>, unsuccessful: seq<string>)

  /**
   * What the stub promises of its table: one key per distinct input XPath, and
   * under each key every URL of the input once as successful and none as
   * unsuccessful. Only the URL keys are consulted, never their content.
   */
  ghost predicate IsStubTable(input: InputJson, output: map<string, XpathResult>)
  {
    && output.Keys == XpathKeys(input.xpaths)
    && (forall x :: x in output ==> Enumerates(output[x].successful, input.urls.Keys))
    && (forall x :: x in output ==> output[x].unsuccessful == [])
  }

  /**
   * `input.urls.keys().cloned().collect()`: the URL keys in the order the
   * HashMap yields them. That order is not specified, so each step may take any
   * key not yet taken.
   */
  method CollectKeys(urls: map<string, UrlData>) returns (keys: seq<string>)
    ensures Enumerates(keys, urls.Keys)
  {
    keys := [];
    var remaining := urls.Keys;
    while remaining != {}
      invariant remaining <= urls.Keys
      invariant forall i, j :: 0 <= i < j < |keys| ==> keys[i] != keys[j]
      invariant forall u :: u in keys <==> u in urls.Keys && u !in remaining
      decreases remaining
    {
      var u :| u in remaining;
      keys := keys + [u];
      remaining := remaining - {u};
    }
  }

  /**
   * The table that inserting `r` under each of `xpaths` in turn makes of `m`:
   * the loop of `process_input`, one `HashMap::insert` per XPath.
   */
  function InsertEach(m: map<string, XpathResult>, xpaths: seq<string>, r: XpathResult): (m': map<string, XpathResult>)
    ensures m'.Keys == m.Keys + XpathKeys(xpaths)
    ensures forall x :: x in m' ==> m'[x] == if x in xpaths then r else m[x]
    decreases |xpaths|
  {
    if xpaths == [] then m else InsertEach(m[xpaths[0] := r], xpaths[1..], r)
  }

  /** Inserting a list one more XPath long is one more insert at the end. */
  lemma InsertEachSnoc(m: map<string, XpathResult>, xpaths: seq<string>, x: string, r: XpathResult)
    ensures InsertEach(m, xpaths + [x], r) == InsertEach(m, xpaths, r)[x := r]
  {
    var lhs, rhs := InsertEach(m, xpaths + [x], r), InsertEach(m, xpaths, r)[x := r];
    assert lhs.Keys == rhs.Keys;
    forall y | y in lhs ensures lhs[y] == rhs[y] {
      if y != x {
        assert y in xpaths + [x] <==> y in xpaths;
      }
    }
  }

  /**
   * A repeated XPath re-inserts the value already stored under it, so the table
   * is the one built with the repetition removed.
   */
  lemma DuplicateInsertUnchanged(m: map<string, XpathResult>, before: seq<string>, x: string, after: seq<string>, r: XpathResult)
    requires x in before
    ensures InsertEach(m, before + [x] + after, r) == InsertEach(m, before + after, r)
  {
    var lhs, rhs := InsertEach(m, before + [x] + after, r), InsertEach(m, before + after, r);
    forall y ensures y in before + [x] + after <==> y in before + after {
      assert y in before + [x] + after <==> y in before || y == x || y in after;
    }
    assert lhs.Keys == rhs.Keys;
  }

  /** `process_input` (src/main.rs:29-45). */
  method ProcessInput(input: InputJson) returns (output: map<string, XpathResult>)
    ensures IsStubTable(input, output)
    ensures forall x :: x in output ==> output == InsertEach(map[], input.xpaths, output[x])
  {
    var allUrls := CollectKeys(input.urls);
    var result := XpathResult(allUrls, []);
    output := map[];
    for i := 0 to |input.xpaths|
      invariant output == InsertEach(map[], input.xpaths[..i], result)
    {
      InsertEachSnoc(map[], input.xpaths[..i], input.xpaths[i], result);
      assert input.xpaths[..i + 1] == input.xpaths[..i] + [input.xpaths[i]];
      output := output[input.xpaths[i] := result];
    }
    assert input.xpaths[..|input.xpaths|] == input.xpaths;
  }

  /** The table's size is the number of distinct XPath strings in the input. */
  lemma StubTableSize(input: InputJson, output: map<string, XpathResult>)
    requires IsStubTable(input, output)
    ensures |output| == |XpathKeys(input.xpaths)|
  {
    assert output.Keys == XpathKeys(input.xpaths);
  }

  /**
   * Two inputs with the same XPaths and the same URL keys admit exactly the same
   * tables, whatever the URLs' content. `IsStubTable` never reads `content`, so
   * this holds on sight; it records that `ProcessInput`'s promise is content-free.
   */
  lemma StubTableIgnoresContent(input: InputJson, other: InputJson, output: map<string, XpathResult>)
    requires input.xpaths == other.xpaths && input.urls.Keys == other.urls.Keys
    ensures IsStubTable(input, output) <==> IsStubTable(other, output)
  {
  }
}
