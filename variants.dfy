/**
 * How the tables of the two Go programs relate on the same input and the same
 * libraries: go_goat drops the XPaths that fail to compile, and wherever
 * main.go records a match, go_goat records the same text.
 */
module Variants {
  import opened Wrappers
  import opened Shapes
  import opened XmlPath
  import GoProcess
  import GoGoat

  /** go_goat's keys are main.go's keys minus the XPaths that fail to compile. */
  lemma GoatKeysAreCompiledProcessKeys(lib: Library, input: InputJson)
    ensures GoGoat.Table(lib, input.xpaths, input.urls).Keys ==
      set x | x in GoProcess.Expected(lib, input) && lib.compile(x).Some?
  {
  }

  /** Every entry main.go records is recorded by go_goat with the same text. */
  lemma GoatAgreesOnMatches(lib: Library, input: InputJson, x: string, url: string)
    requires x in GoProcess.Expected(lib, input) && url in GoProcess.Expected(lib, input)[x]
    ensures x in GoGoat.Table(lib, input.xpaths, input.urls)
    ensures GoGoat.Table(lib, input.xpaths, input.urls)[x][url] == GoProcess.Expected(lib, input)[x][url]
  {
  }
}
