/**
 * `processInput` of the Go program (main.go): compile every list entry once,
 * decode every URL once, and record `output[x][u]` only where evaluation matched.
 */
module GoProcess {
  import opened Wrappers
  import opened Shapes
  import opened XmlPath

  /** The text `fmt.Errorf` puts before the unmarshal error. */
  const UnmarshalErrorPrefix := "error unmarshalling input JSON: "

  /**
   * What evaluating `x` on `content` contributes to the table: the matched text
   * when `x` compiles, `content` decodes without error to a non-nil root and
   * `Bytes` reports ok; nothing otherwise.
   */
  function Extract(lib: Library, x: string, content: string): (r: Option<string>)
    ensures r.Some? ==> lib.compile(x).Some?
    ensures r.Some? ==> lib.decode(content).Success? && lib.decode(content).value.Some?
  {
    match lib.compile(x)
    case None => None
    case Some(path) =>
      match lib.decode(content)
      case Failure(_) => None
      case Success(None) => None
      case Success(Some(root)) => lib.bytes(path, Some(root))
  }

  /** The inner map of `x` once the URLs in `done` have been processed. */
  function Row(lib: Library, x: string, urls: map<string, UrlData>, done: set<string>): (r: map<string, string>)
    ensures r.Keys <= done * urls.Keys
  {
    map u | u in done && u in urls && Extract(lib, x, urls[u].content).Some? :: Extract(lib, x, urls[u].content).value
  }

  /** Every inner map of `output` is the row for the URLs in `done`. */
  ghost predicate RowsUpTo(lib: Library, urls: map<string, UrlData>, output: OutputJson, done: set<string>)
  {
    forall x :: x in output ==> output[x] == Row(lib, x, urls, done)
  }

  /**
   * The table `processInput` returns for a well-formed input: every input XPath
   * is a key, including the ones that fail to compile, and every inner map only
   * holds URLs of the input.
   */
  function Expected(lib: Library, input: InputJson): (r: OutputJson)
    ensures r.Keys == XpathKeys(input.xpaths)
    ensures forall x :: x in r ==> r[x].Keys <= input.urls.Keys
  {
    map x | x in input.xpaths :: Row(lib, x, input.urls, input.urls.Keys)
  }

  /** `output[x][u] = s`: one write into one cell of the table. */
  function Put(output: OutputJson, x: string, u: string, s: string): (r: OutputJson)
    requires x in output
    ensures r.Keys == output.Keys
    ensures u in r[x] && r[x][u] == s
    ensures forall v :: v in output[x] && v != u ==> v in r[x] && r[x][v] == output[x][v]
    ensures forall v :: v in r[x] ==> v == u || v in output[x]
    ensures forall y :: y in output && y != x ==> r[y] == output[y]
  {
    output[x := output[x][u := s]]
  }

  /**
   * Writes to two different cells commute, so the order in which the URL loop
   * and the `compiledPaths` loop visit their keys does not change the table.
   * No proof here calls it: `ProcessInput` is proved for every choice its
   * loops make, and this lemma is the cell-level reason that is so.
   */
  lemma PutCommutes(output: OutputJson, x1: string, u1: string, s1: string, x2: string, u2: string, s2: string)
    requires x1 in output && x2 in output
    requires x1 != x2 || u1 != u2
    ensures Put(Put(output, x1, u1, s1), x2, u2, s2) == Put(Put(output, x2, u2, s2), x1, u1, s1)
  {
    if x1 == x2 {
      assert output[x1][u1 := s1][u2 := s2] == output[x1][u2 := s2][u1 := s1];
    }
  }

  /** Adding one more processed URL to a row adds that URL's entry, if any. */
  lemma RowStep(lib: Library, x: string, urls: map<string, UrlData>, done: set<string>, url: string)
    requires url in urls && url !in done
    ensures Extract(lib, x, urls[url].content).None? ==>
      Row(lib, x, urls, done + {url}) == Row(lib, x, urls, done)
    ensures Extract(lib, x, urls[url].content).Some? ==>
      Row(lib, x, urls, done + {url}) == Row(lib, x, urls, done)[url := Extract(lib, x, urls[url].content).value]
  {
  }

  /** Processing one more URL turns rows over `done` into rows over `done + {url}`. */
  lemma RowsUpToStep(lib: Library, urls: map<string, UrlData>, done: set<string>, url: string, before: OutputJson, after: OutputJson)
    requires url in urls && url !in done
    requires RowsUpTo(lib, urls, before, done)
    requires after.Keys == before.Keys
    requires forall x :: x in before && Extract(lib, x, urls[url].content).None? ==> after[x] == before[x]
    requires forall x :: x in before && Extract(lib, x, urls[url].content).Some? ==>
      after[x] == before[x][url := Extract(lib, x, urls[url].content).value]
    ensures RowsUpTo(lib, urls, after, done + {url})
  {
    forall x | x in after ensures after[x] == Row(lib, x, urls, done + {url}) {
      RowStep(lib, x, urls, done, url);
    }
  }

  /**
   * The compile loop (main.go:64-80): every XPath gets an empty inner map, and
   * the ones that compile are remembered in `compiledPaths`.
   */
  method CompileAll(lib: Library, xpaths: seq<string>) returns (output: OutputJson, compiledPaths: map<string, Path>)
    ensures output.Keys == XpathKeys(xpaths)
    ensures forall x :: x in output ==> output[x] == map[]
    ensures forall x :: x in compiledPaths <==> x in xpaths && lib.compile(x).Some?
    ensures forall x :: x in compiledPaths ==> lib.compile(x) == Some(compiledPaths[x])
  {
    output, compiledPaths := map[], map[];
    for i := 0 to |xpaths|
      invariant output.Keys == XpathKeys(xpaths[..i])
      invariant forall x :: x in output ==> output[x] == map[]
      invariant forall x :: x in compiledPaths <==> x in xpaths[..i] && lib.compile(x).Some?
      invariant forall x :: x in compiledPaths ==> lib.compile(x) == Some(compiledPaths[x])
    {
      var xpathStr := xpaths[i];
      assert xpaths[..i + 1] == xpaths[..i] + [xpathStr];
      output := output[xpathStr := map[]];
      var path := lib.compile(xpathStr);
      if path.Some? {
        compiledPaths := compiledPaths[xpathStr := path.value];
      }
    }
    assert xpaths[..|xpaths|] == xpaths;
  }

  /**
   * The evaluation loop for one decoded URL (main.go:104-112): each compiled
   * XPath that `Bytes` matches on `root` gets an entry for `url`; nothing else
   * changes. `compiledPaths` is visited in any order.
   */
  method ApplyCompiled(lib: Library, compiledPaths: map<string, Path>, output: OutputJson, url: string, root: Node)
    returns (updated: OutputJson)
    requires compiledPaths.Keys <= output.Keys
    ensures updated.Keys == output.Keys
    ensures forall x :: x in output && x in compiledPaths && lib.bytes(compiledPaths[x], Some(root)).Some? ==>
      updated[x] == output[x][url := lib.bytes(compiledPaths[x], Some(root)).value]
    ensures forall x :: x in output && (x !in compiledPaths || lib.bytes(compiledPaths[x], Some(root)).None?) ==>
      updated[x] == output[x]
  {
    updated := output;
    var pending := compiledPaths.Keys;
    while pending != {}
      invariant pending <= compiledPaths.Keys
      invariant updated.Keys == output.Keys
      invariant forall x :: x in output && x in compiledPaths && x !in pending && lib.bytes(compiledPaths[x], Some(root)).Some? ==>
        updated[x] == output[x][url := lib.bytes(compiledPaths[x], Some(root)).value]
      invariant forall x :: x in output && (x in pending || x !in compiledPaths || lib.bytes(compiledPaths[x], Some(root)).None?) ==>
        updated[x] == output[x]
      decreases pending
    {
      var xpathStr :| xpathStr in pending;
      var resultBytes := lib.bytes(compiledPaths[xpathStr], Some(root));
      if resultBytes.Some? {
        updated := Put(updated, xpathStr, url, resultBytes.value);
      }
      pending := pending - {xpathStr};
    }
  }

  /**
   * The URL loop (main.go:83-113): decode each URL once, in any order, and let
   * every compiled XPath that matches on its root record an entry. `decoded`
   * lists the URLs passed to `decode`, in call order.
   */
  method EvaluateAll(lib: Library, compiledPaths: map<string, Path>, output: OutputJson, urls: map<string, UrlData>)
    returns (updated: OutputJson, ghost decoded: seq<string>)
    requires compiledPaths.Keys <= output.Keys
    requires forall x :: x in output && lib.compile(x).Some? ==> x in compiledPaths
    requires forall x :: x in compiledPaths ==> lib.compile(x) == Some(compiledPaths[x])
    requires forall x :: x in output ==> output[x] == map[]
    ensures updated.Keys == output.Keys
    ensures RowsUpTo(lib, urls, updated, urls.Keys)
    ensures Enumerates(decoded, urls.Keys)
  {
    updated, decoded := output, [];
    var done: set<string> := {};
    assert RowsUpTo(lib, urls, updated, done) by {
      forall x | x in updated ensures updated[x] == Row(lib, x, urls, done) {
        assert Row(lib, x, urls, done).Keys == {};
      }
    }
    while done != urls.Keys
      invariant done <= urls.Keys
      invariant Enumerates(decoded, done)
      invariant updated.Keys == output.Keys
      invariant RowsUpTo(lib, urls, updated, done)
      decreases urls.Keys - done
    {
      assert !(urls.Keys <= done);
      var url :| url in urls.Keys && url !in done;
      decoded := decoded + [url];
      ghost var before := updated;
      var root := lib.decode(urls[url].content);
      if root.Success? && root.value.Some? {
        updated := ApplyCompiled(lib, compiledPaths, updated, url, root.value.value);
      }
      RowsUpToStep(lib, urls, done, url, before, updated);
      done := done + {url};
    }
  }

  /** Once every URL is processed, a table holding one full row per input XPath is `Expected`. */
  lemma CompleteRowsAreExpected(lib: Library, input: InputJson, output: OutputJson)
    requires output.Keys == XpathKeys(input.xpaths)
    requires RowsUpTo(lib, input.urls, output, input.urls.Keys)
    ensures output == Expected(lib, input)
  {
    var expected := Expected(lib, input);
    forall x | x in output ensures output[x] == expected[x] {
      assert output[x] == Row(lib, x, input.urls, input.urls.Keys);
    }
  }

  /** `processInput` (main.go:54-116); `decoded` lists the URLs passed to `decode`, in call order. */
  method ProcessInput(lib: Library, unmarshal: seq<byte> -> Result<InputJson, string>, inputBytes: seq<byte>)
    returns (result: Result<OutputJson, string>, ghost decoded: seq<string>)
    ensures unmarshal(inputBytes).Failure? ==> result == Failure(UnmarshalErrorPrefix + unmarshal(inputBytes).error)
    ensures unmarshal(inputBytes).Success? ==> result == Success(Expected(lib, unmarshal(inputBytes).value))
    ensures unmarshal(inputBytes).Failure? ==> decoded == []
    ensures unmarshal(inputBytes).Success? ==>
      Enumerates(decoded, unmarshal(inputBytes).value.urls.Keys) && |decoded| == |unmarshal(inputBytes).value.urls|
  {
    decoded := [];
    var parsed := unmarshal(inputBytes);
    if parsed.Failure? {
      return Failure(UnmarshalErrorPrefix + parsed.error), decoded;
    }
    var input := parsed.value;
    var output, compiledPaths := CompileAll(lib, input.xpaths);
    output, decoded := EvaluateAll(lib, compiledPaths, output, input.urls);
    CompleteRowsAreExpected(lib, input, output);
    EnumeratesLength(decoded, input.urls.Keys);
    return Success(output), decoded;
  }

  /** An XPath that does not compile has an empty inner map. */
  lemma CompileFailureRowEmpty(lib: Library, input: InputJson, x: string)
    requires x in input.xpaths && lib.compile(x).None?
    ensures x in Expected(lib, input) && Expected(lib, input)[x] == map[]
  {
    assert Expected(lib, input)[x].Keys == {};
  }

  /** A URL whose content fails to decode, or decodes to a nil root, is in no inner map. */
  lemma UnparsedUrlAbsent(lib: Library, input: InputJson, url: string)
    requires url in input.urls
    requires lib.decode(input.urls[url].content).Failure? || lib.decode(input.urls[url].content) == Success(None)
    ensures forall x :: x in Expected(lib, input) ==> url !in Expected(lib, input)[x]
  {
  }

  /**
   * `output[x][u]` exists exactly when `x` compiled, `u`'s content decoded to a
   * non-nil root and `Bytes` reported ok on it; its value is then the matched text.
   */
  lemma EntryCondition(lib: Library, input: InputJson, x: string, url: string)
    requires x in input.xpaths && url in input.urls
    ensures url in Expected(lib, input)[x] <==>
      && lib.compile(x).Some?
      && lib.decode(input.urls[url].content).Success?
      && lib.decode(input.urls[url].content).value.Some?
      && lib.bytes(lib.compile(x).value, lib.decode(input.urls[url].content).value).Some?
    ensures url in Expected(lib, input)[x] ==>
      Expected(lib, input)[x][url] == lib.bytes(lib.compile(x).value, lib.decode(input.urls[url].content).value).value
  {
  }

  /** An XPath that matches on no URL has an empty inner map. */
  lemma NoMatchRowEmpty(lib: Library, input: InputJson, x: string)
    requires x in input.xpaths
    requires forall url :: url in input.urls ==> Extract(lib, x, input.urls[url].content).None?
    ensures Expected(lib, input)[x] == map[]
  {
    assert Expected(lib, input)[x].Keys == {};
  }
}
