/** Path prefixes shared by the image observer and the library relocation. */
module Paths {

  predicate StartsWith(s: string, prefix: string) {
    |prefix| <= |s| && s[..|prefix|] == prefix
  }

  /** A library of the system, which is neither bound to a file nor copied. */
  predicate IsSystem(path: string) {
    StartsWith(path, "/usr/lib/") || StartsWith(path, "/System/Library/")
  }
}
