/**
 * The input and output shapes that the Rust stub and both Go programs share: a
 * list of XPath strings, a dictionary from URL to its content, and a result table
 * keyed by XPath string.
 */
module Shapes {

  /** One byte of the raw standard input. */
  newtype byte = b: int | 0 <= b < 256

  /** `UrlData`: the raw markup of one URL. */
  datatype UrlData = UrlData(content: string)

  /** `InputJson`: the XPath strings in input order, and the URL dictionary. */
  datatype InputJson = InputJson(xpaths: seq<string>, urls: map<string, UrlData>)

  /** Go's `OutputJson`: XPath string to (URL to extracted string). */
  type OutputJson = map<string, map<string, string>>

  /** The distinct strings of an XPath list: the key set a table built from it can have. */
  function XpathKeys(xpaths: seq<string>): set<string>
  {
    set x | x in xpaths
  }

  /** `s` lists every element of `keys` exactly once, in some order. */
  ghost predicate Enumerates(s: seq<string>, keys: set<string>)
  {
    && (forall i, j :: 0 <= i < j < |s| ==> s[i] != s[j])
    && (forall u :: u in s <==> u in keys)
  }

  /** A listing that names every key once is as long as the key set is large. */
  lemma {:induction false} EnumeratesLength(s: seq<string>, keys: set<string>)
    requires Enumerates(s, keys)
    ensures |s| == |keys|
  {
    if s != [] {
      var last := s[|s| - 1];
      var init := s[..|s| - 1];
      assert last !in init by {
        forall i | 0 <= i < |init| ensures init[i] != last {
          assert s[i] != s[|s| - 1];
        }
      }
      assert Enumerates(init, keys - {last}) by {
        forall u ensures u in init <==> u in keys - {last} {
          assert u in s <==> u in init || u == last by {
            assert s == init + [last];
          }
        }
      }
      EnumeratesLength(init, keys - {last});
    }
  }
}
