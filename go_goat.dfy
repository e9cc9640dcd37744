/**
 * The processing loop inside `main` of go_goat (go_goat/main.go): every XPath
 * that compiles gets an entry for every URL, re-decoding the content each time.
 */
module GoGoat {
  import opened Wrappers
  import opened Shapes
  import opened XmlPath

  /** The text `fmt.Sprintf` puts before a decode error. */
  const ParseErrorPrefix := "Error parsing content: "

  /**
   * The entry recorded for a compiled `path` on `content`: the error text after
   * a decode failure, `""` when `Bytes` reports no match, the matched text otherwise.
   */
  function Entry(lib: Library, path: Path, content: string): (r: string)
    ensures r == "" ==> lib.decode(content).Success?
    ensures r == "" ==> lib.bytes(path, lib.decode(content).value) in {None, Some("")}
  {
    match lib.decode(content)
    case Failure(err) => ParseErrorPrefix + err
    case Success(root) =>
      match lib.bytes(path, root)
      case None => ""
      case Some(text) => text
  }

  /** The inner map of a compiled `path` once the URLs in `done` have been processed. */
  function PartialRow(lib: Library, path: Path, urls: map<string, UrlData>, done: set<string>): (r: map<string, string>)
    ensures r.Keys == done * urls.Keys
  {
    map u | u in done && u in urls :: Entry(lib, path, urls[u].content)
  }

  /** Processing one more URL adds its entry to the row. */
  lemma PartialRowStep(lib: Library, path: Path, urls: map<string, UrlData>, done: set<string>, url: string)
    requires url in urls
    ensures PartialRow(lib, path, urls, done + {url}) == PartialRow(lib, path, urls, done)[url := Entry(lib, path, urls[url].content)]
  {
  }

  /** Setting a row twice keeps the second value. */
  lemma OverwriteRow(table: OutputJson, x: string, first: map<string, string>, second: map<string, string>)
    ensures table[x := first][x := second] == table[x := second]
  {
    var lhs, rhs := table[x := first][x := second], table[x := second];
    assert lhs.Keys == rhs.Keys;
    forall y | y in lhs ensures lhs[y] == rhs[y] {
    }
  }

  /**
   * The table after the loop has processed `xpaths`: only XPaths that compile
   * are keys, and each of their inner maps has exactly the input's URLs as keys.
   */
  function Table(lib: Library, xpaths: seq<string>, urls: map<string, UrlData>): (r: OutputJson)
    ensures forall x :: x in r <==> x in xpaths && lib.compile(x).Some?
    ensures forall x :: x in r ==> r[x].Keys == urls.Keys
  {
    map x | x in xpaths && lib.compile(x).Some? :: PartialRow(lib, lib.compile(x).value, urls, urls.Keys)
  }

  /** Membership in a list with one more element. */
  lemma InSnoc(xpaths: seq<string>, x: string)
    ensures forall y :: y in xpaths + [x] <==> y in xpaths || y == x
  {
    forall y ensures y in xpaths + [x] <==> y in xpaths || y == x {
      assert y in xpaths + [x] <==> y in xpaths || y in [x];
    }
  }

  /** One more XPath that fails to compile leaves the table unchanged. */
  lemma TableSnocSkip(lib: Library, xpaths: seq<string>, x: string, urls: map<string, UrlData>)
    requires lib.compile(x).None?
    ensures Table(lib, xpaths + [x], urls) == Table(lib, xpaths, urls)
  {
    InSnoc(xpaths, x);
    var before, after := Table(lib, xpaths, urls), Table(lib, xpaths + [x], urls);
    assert after.Keys == before.Keys;
    forall y | y in after ensures after[y] == before[y] {
    }
  }

  /** One more XPath that compiles (re)sets its key to a full row. */
  lemma TableSnocSet(lib: Library, xpaths: seq<string>, x: string, urls: map<string, UrlData>)
    requires lib.compile(x).Some?
    ensures Table(lib, xpaths + [x], urls) == Table(lib, xpaths, urls)[x := PartialRow(lib, lib.compile(x).value, urls, urls.Keys)]
  {
    InSnoc(xpaths, x);
    var before, after := Table(lib, xpaths, urls), Table(lib, xpaths + [x], urls);
    var updated := before[x := PartialRow(lib, lib.compile(x).value, urls, urls.Keys)];
    assert after.Keys == updated.Keys;
    forall y | y in after ensures after[y] == updated[y] {
    }
  }

  /**
   * One more XPath: unchanged when it fails to compile, otherwise its key is
   * (re)set to a full row.
   */
  lemma TableSnoc(lib: Library, xpaths: seq<string>, x: string, urls: map<string, UrlData>)
    ensures lib.compile(x).None? ==> Table(lib, xpaths + [x], urls) == Table(lib, xpaths, urls)
    ensures lib.compile(x).Some? ==>
      Table(lib, xpaths + [x], urls) == Table(lib, xpaths, urls)[x := PartialRow(lib, lib.compile(x).value, urls, urls.Keys)]
  {
    if lib.compile(x).Some? {
      TableSnocSet(lib, xpaths, x, urls);
    } else {
      TableSnocSkip(lib, xpaths, x, urls);
    }
  }

  /** One more XPath adds one to the count exactly when it compiles. */
  lemma CompiledCountSnoc(lib: Library, xpaths: seq<string>, x: string)
    ensures CompiledCount(lib, xpaths + [x]) == CompiledCount(lib, xpaths) + (if lib.compile(x).Some? then 1 else 0)
  {
    assert (xpaths + [x])[..|xpaths|] == xpaths;
  }

  /** One more row of `n` calls. */
  lemma MulSucc(count: nat, n: nat)
    ensures (count + 1) * n == count * n + n
  {
  }

  /** How many of the listed XPaths (repetitions included) compile. */
  function CompiledCount(lib: Library, xpaths: seq<string>): nat
  {
    if xpaths == [] then 0
    else CompiledCount(lib, xpaths[..|xpaths| - 1]) + (if lib.compile(xpaths[|xpaths| - 1]).Some? then 1 else 0)
  }

  /** Positions of the list that hold a compiling XPath. */
  function CompiledPositions(lib: Library, xpaths: seq<string>): set<nat>
  {
    set i: nat | i < |xpaths| && lib.compile(xpaths[i]).Some?
  }

  /** The count is the number of list positions holding an XPath that compiles. */
  lemma {:induction false} CompiledCountIsPositions(lib: Library, xpaths: seq<string>)
    ensures CompiledCount(lib, xpaths) == |CompiledPositions(lib, xpaths)|
  {
    if xpaths != [] {
      var n := |xpaths| - 1;
      var init := xpaths[..n];
      CompiledCountIsPositions(lib, init);
      var before := CompiledPositions(lib, init);
      if lib.compile(xpaths[n]).Some? {
        assert CompiledPositions(lib, xpaths) == before + {n};
      } else {
        assert CompiledPositions(lib, xpaths) == before;
      }
    }
  }

  /**
   * The inner loop of go_goat/main.go:81-103 for one compiled XPath: every URL
   * of `urls`, visited in any order, gets its entry in `output[xpathStr]`.
   * `decodeCalls` counts the calls to `decode`.
   */
  method FillRow(lib: Library, output: OutputJson, xpathStr: string, path: Path, urls: map<string, UrlData>)
    returns (updated: OutputJson, ghost decodeCalls: nat)
    requires xpathStr in output && output[xpathStr] == map[]
    ensures updated == output[xpathStr := PartialRow(lib, path, urls, urls.Keys)]
    ensures decodeCalls == |urls|
  {
    updated, decodeCalls := output, 0;
    var done: set<string> := {};
    assert PartialRow(lib, path, urls, done).Keys == {};
    while done != urls.Keys
      invariant done <= urls.Keys
      invariant updated == output[xpathStr := PartialRow(lib, path, urls, done)]
      invariant decodeCalls == |done|
      decreases urls.Keys - done
    {
      assert !(urls.Keys <= done);
      var url :| url in urls.Keys && url !in done;
      decodeCalls := decodeCalls + 1;
      ghost var prev := updated;
      var root := lib.decode(urls[url].content);
      if root.Failure? {
        updated := updated[xpathStr := updated[xpathStr][url := ParseErrorPrefix + root.error]];
      } else {
        var resultBytes := lib.bytes(path, root.value);
        if resultBytes.None? {
          updated := updated[xpathStr := updated[xpathStr][url := ""]];
        } else {
          updated := updated[xpathStr := updated[xpathStr][url := resultBytes.value]];
        }
      }
      ghost var row := PartialRow(lib, path, urls, done + {url});
      PartialRowStep(lib, path, urls, done, url);
      assert updated == prev[xpathStr := row];
      OverwriteRow(output, xpathStr, PartialRow(lib, path, urls, done), row);
      done := done + {url};
    }
    assert |done| == |urls|;
  }

  /**
   * The loop of go_goat/main.go:68-104: XPaths that fail to compile are skipped,
   * every other one gets a fresh inner map filled with one entry per URL.
   * `decodeCalls` counts the calls to `decode`.
   */
  method ProcessLoop(lib: Library, input: InputJson) returns (output: OutputJson, ghost decodeCalls: nat)
    ensures output == Table(lib, input.xpaths, input.urls)
    ensures decodeCalls == |CompiledPositions(lib, input.xpaths)| * |input.urls|
  {
    output, decodeCalls := map[], 0;
    ghost var n := |input.urls|;
    for i := 0 to |input.xpaths|
      invariant output == Table(lib, input.xpaths[..i], input.urls)
      invariant decodeCalls == CompiledCount(lib, input.xpaths[..i]) * n
    {
      var xpathStr := input.xpaths[i];
      assert input.xpaths[..i + 1] == input.xpaths[..i] + [xpathStr];
      TableSnoc(lib, input.xpaths[..i], xpathStr, input.urls);
      CompiledCountSnoc(lib, input.xpaths[..i], xpathStr);
      ghost var count := CompiledCount(lib, input.xpaths[..i]);
      var path := lib.compile(xpathStr);
      if path.None? {
        assert CompiledCount(lib, input.xpaths[..i + 1]) == count;
        assert decodeCalls == CompiledCount(lib, input.xpaths[..i + 1]) * n;
        continue;
      }
      assert CompiledCount(lib, input.xpaths[..i + 1]) == count + 1;
      ghost var before := output;
      output := output[xpathStr := map[]];
      ghost var calls;
      output, calls := FillRow(lib, output, xpathStr, path.value, input.urls);
      OverwriteRow(before, xpathStr, map[], PartialRow(lib, path.value, input.urls, input.urls.Keys));
      decodeCalls := decodeCalls + calls;
      MulSucc(count, n);
      assert decodeCalls == CompiledCount(lib, input.xpaths[..i + 1]) * n;
    }
    assert input.xpaths[..|input.xpaths|] == input.xpaths;
    CompiledCountIsPositions(lib, input.xpaths);
  }

  /** The entry of a URL whose content fails to decode is the error text after a fixed prefix. */
  lemma ParseErrorEntry(lib: Library, xpaths: seq<string>, urls: map<string, UrlData>, x: string, url: string)
    requires x in xpaths && lib.compile(x).Some? && url in urls
    requires lib.decode(urls[url].content).Failure?
    ensures Table(lib, xpaths, urls)[x][url] == ParseErrorPrefix + lib.decode(urls[url].content).error
  {
  }

  /** The entry is empty when `Bytes` reports no match on the decoded root. */
  lemma NoMatchEntry(lib: Library, xpaths: seq<string>, urls: map<string, UrlData>, x: string, url: string)
    requires x in xpaths && lib.compile(x).Some? && url in urls
    requires lib.decode(urls[url].content).Success?
    requires lib.bytes(lib.compile(x).value, lib.decode(urls[url].content).value).None?
    ensures Table(lib, xpaths, urls)[x][url] == ""
  {
  }

  /** The entry is the matched text when `Bytes` reports a match on the decoded root. */
  lemma MatchEntry(lib: Library, xpaths: seq<string>, urls: map<string, UrlData>, x: string, url: string)
    requires x in xpaths && lib.compile(x).Some? && url in urls
    requires lib.decode(urls[url].content).Success?
    requires lib.bytes(lib.compile(x).value, lib.decode(urls[url].content).value).Some?
    ensures Table(lib, xpaths, urls)[x][url] == lib.bytes(lib.compile(x).value, lib.decode(urls[url].content).value).value
  {
  }
}
