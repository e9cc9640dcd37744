/**
 * The libraries the programs call but whose source is not part of this model:
 * `launchpad.net/xmlpath` (Compile, Path.Bytes) and the `decode` helper built on
 * `encoding/xml` and `golang.org/x/net/html/charset`. They enter the model as
 * uninterpreted oracles: deterministic functions about which nothing is assumed.
 */
module XmlPath {
  import opened Wrappers

  /** A compiled XPath expression (`*xmlpath.Path`). */
  type Path

  /** A parsed document node (`xmlpath.Node`). */
  type Node

  /** A `*xmlpath.Node`: `None` is the nil pointer. */
  type NodeRef = Option<Node>

  /**
   * The three library calls:
   *  - `compile(x)`: `xmlpath.Compile(x)`, `None` when it returns an error;
   *  - `decode(content)`: the `decode` helper on a reader over `content`, giving the
   *    root (possibly nil) or the error's text;
   *  - `bytes(p, root)`: `p.Bytes(root)`, `None` when it reports `ok == false`.
   */
  datatype Library = Library(
    compile: string -> Option<Path>,
    decode: string -> Result<NodeRef, string>,
    bytes: (Path, NodeRef) -> Option<string>)
}
