# goatpaver result tables, modelled in Dafny

goatpaver takes a list of XPath expressions and a dictionary of URLs with their
markup. It produces a table keyed by XPath string that says, per URL, what each
expression extracted. The repository holds three programs that build this
table, each with its own rules for which keys and entries appear:

- the Rust stub `process_input` (`src/main.rs`) reports every XPath as
  successful on every URL, without reading any document;
- the Go `processInput` (`main.go`) compiles every list entry once (a repeated
  XPath is compiled again) and decodes every URL once. It records `output[x][u]` only where the XPath compiled, the
  document decoded to a non-nil root, and `Path.Bytes` reported a match;
- the loop in `main` of go_goat (`go_goat/main.go`) drops XPaths that fail to
  compile and re-decodes every document for every compiled XPath. It records an
  entry for every URL: an error text, `""` for no match, or the matched text.

The libraries the programs call (`xmlpath.Compile`, the `decode` helper,
`Path.Bytes`, `json.Unmarshal`) are uninterpreted oracles. They are the fields
of `XmlPath.Library` over the opaque types `Path` and `Node`, plus an
`unmarshal` function parameter. Nothing is assumed about them beyond being
deterministic functions. A Go `*xmlpath.Node` is an `Option<Node>`, with `None`
standing for nil.

Go and Rust map iteration order is unspecified. Each loop over a map therefore
picks any key not yet visited (`:|`). Every postcondition below holds for every
iteration order, so the Go tables do not depend on it; in the Rust stub only the
order inside each `successful` list does. The number of `decode`
calls is a ghost out-parameter: the list of URLs decoded in `main.go`, a
counter in go_goat.

The shared shapes live in `shapes.dfy`. `Shapes.InputJson` is the input: the
list of XPath strings and the map from URL to `Shapes.UrlData`, whose only field
is the markup `content` (`main.go:17-24`, `src/main.rs:8-18`).
`Shapes.OutputJson` is the Go output, a map from XPath string to a map from URL
to text (`main.go:28-29`). `RustStub.XpathResult` is the stub's per-XPath value,
holding a `successful` and an `unsuccessful` list of URLs (`src/main.rs:23-27`).

Files: `wrappers.dfy` (Option, Result), `xmlpath.dfy` (the oracles),
`shapes.dfy` (the shared input and output shapes), `rust_stub.dfy`,
`go_process.dfy`, `go_goat.dfy`, and `variants.dfy` (how the two Go tables
relate).

## Model

| member | source | states |
|---|---|---|
| RustStub.CollectKeys | src/main.rs:31 | the collected URL list names every key of `input.urls` exactly once, in any order |
| RustStub.InsertEach | src/main.rs:34-42 | inserting one result under each XPath yields a map whose keys are the old keys plus the distinct XPaths; listed XPaths map to the result and the other keys keep their old values |
| RustStub.ProcessInput | src/main.rs:29-45 | one key per distinct input XPath; under each key `successful` lists every input URL once and `unsuccessful` is empty; the table is the fold of inserts of one shared result |
| RustStub.DuplicateInsertUnchanged | src/main.rs:41 | a repeated XPath re-inserts the same value, so the table equals the one built with the repetition removed |
| RustStub.StubTableSize | src/main.rs:116 | the table has as many entries as there are distinct XPath strings |
| RustStub.StubTableIgnoresContent | src/main.rs:29-45 | two inputs with the same XPaths and URL keys admit the same tables, whatever the URLs' content |
| GoProcess.CompileAll | main.go:64-80 | every XPath gets an empty inner map; `compiledPaths` holds exactly the XPaths that compile, each with its compiled path |
| GoProcess.ApplyCompiled | main.go:104-112 | for one decoded root, each compiled XPath on which `Bytes` reports ok gains the entry for the URL; every other inner map is unchanged; keys unchanged |
| GoProcess.PutCommutes | main.go:83-112 | writes to two different (XPath, URL) cells commute, so the visiting order of URLs and compiled paths does not change the table |
| GoProcess.ProcessInput | main.go:54-116 | an unmarshal failure returns the prefixed error and decodes nothing; otherwise the table is `Expected` for every iteration order, and `decode` is called exactly once per URL |
| GoProcess.Extract | main.go:72-111 | an entry can come from `x` on `content` only if `x` compiles and `content` decodes without error to a non-nil root |
| GoProcess.Row | main.go:83-112 | the inner map of one XPath after some URLs are processed only holds URLs that were processed and belong to the input |
| GoProcess.Expected | main.go:64-112 | the finished table has every input XPath as a key, including ones that fail to compile, and its inner maps only hold input URLs |
| GoProcess.Put | main.go:109 | one write `output[x][u] = s` sets that cell to `s`, keeps the other cells of `x` and every other inner map, and adds no key |
| GoProcess.EvaluateAll | main.go:83-113 | after the URL loop, whatever the order, each inner map is the full row of its XPath; every URL is decoded exactly once |
| GoProcess.CompileFailureRowEmpty | main.go:72-76 | an XPath that fails to compile has an empty inner map |
| GoProcess.UnparsedUrlAbsent | main.go:88-101 | a URL whose content fails to decode, or decodes to a nil root, appears in no inner map |
| GoProcess.EntryCondition | main.go:104-111 | `output[x][u]` exists iff x compiled, u decoded to a non-nil root and `Bytes` reported ok; its value is then the matched text |
| GoProcess.NoMatchRowEmpty | main.go:108-111 | an XPath that yields no entry on any URL has an empty inner map |
| GoGoat.CompiledCountIsPositions | go_goat/main.go:70-76 | the number of compiling XPaths counted along the loop equals the number of list positions holding an XPath that compiles |
| GoGoat.FillRow | go_goat/main.go:81-103 | for one compiled XPath, its inner map becomes exactly one entry per input URL, whatever the order; `decode` is called once per URL |
| GoGoat.ProcessLoop | go_goat/main.go:67-104 | the table is `Table` for every iteration order; `decode` is called (number of compiling list positions) × (number of URLs) times |
| GoGoat.Entry | go_goat/main.go:86-101 | an empty entry means the content decoded and `Bytes` reported no match or matched the empty text; a decode failure never gives an empty entry |
| GoGoat.PartialRow | go_goat/main.go:81-103 | once the URLs in `done` are processed, the inner map has exactly the processed input URLs as keys |
| GoGoat.Table | go_goat/main.go:70-103 | the keys are exactly the listed XPaths that compile; each inner map's keys are exactly the input URLs |
| GoGoat.ParseErrorEntry | go_goat/main.go:86-90 | on a decode failure the entry is `"Error parsing content: "` followed by the error text |
| GoGoat.NoMatchEntry | go_goat/main.go:94-98 | when `Bytes` reports no match the entry is the empty string |
| GoGoat.MatchEntry | go_goat/main.go:100-101 | when `Bytes` reports a match the entry is the matched text |
| Variants.GoatKeysAreCompiledProcessKeys | go_goat/main.go:70-79 | go_goat's keys are main.go's keys less the XPaths that fail to compile |
| Variants.GoatAgreesOnMatches | go_goat/main.go:94-101 | every entry main.go records is recorded by go_goat with the same text |

## Left out

- Reading standard input, writing standard output and standard error, `fatalf` and `os.Exit`, `main` in `src/main.rs` and in `main.go`: I/O plumbing.
- JSON (de)serialisation with serde and `encoding/json`. Only `json.Unmarshal` failing with an error is kept, as the `unmarshal` oracle of `GoProcess.ProcessInput`. go_goat's unmarshal failure ends the process and is left out with the rest of its `main`.
- The internals of `decode` (charset detection, XML tokenising), the XPath grammar of `xmlpath.Compile`, and the evaluation done by `Path.Bytes`. These are libraries whose source is not part of this model, so they are uninterpreted functions.
- The wording of the warnings printed to standard error.
- go_goat passes the root from `decode` to `Bytes` without a nil check. The model passes it on as it is (`Bytes` takes a possibly-nil `NodeRef`). What the library does with a nil root (possibly a panic) is not modelled.
- Go inner maps are reference values. The model treats them as values. Each inner map is created fresh by `make` and never shared, so no aliasing is lost.
- The Rust unit tests at `src/main.rs:68-209`. One builds URL objects without the required `content` field, one expects real XPath matching that the stub does not do, and the second test is nested inside the first.
- GoProcess.ApplyCompiled: requires every compiled XPath to already have an inner map. `processInput` guarantees this by construction. The source would panic on a write into a missing (nil) inner map.
