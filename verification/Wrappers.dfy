// Small shared vocabulary: optional values, results, and JavaScript's notion of a blank string.
module Wrappers {

  datatype Option<+T> = None | Some(value: T)

  datatype Result<+T, +E> = Success(value: T) | Failure(error: E)

  /** A call that fails, or a reply that is lost, at the world's choice; a quiet call meets neither. */
  method Fails(quiet: bool) returns (fails: bool)
    ensures quiet ==> !fails
  {
    fails := *;
    if quiet { fails := false; }
  }

  /** The characters JavaScript's `trim` removes and the regular expression `\s` matches. */
  predicate IsSpace(c: char) {
    c in {'\t', '\n', '\U{000B}', '\U{000C}', '\r', ' ', '\U{00A0}', '\U{1680}', '\U{2000}', '\U{2001}', '\U{2002}',
          '\U{2003}', '\U{2004}', '\U{2005}', '\U{2006}', '\U{2007}', '\U{2008}', '\U{2009}', '\U{200A}', '\U{2028}',
          '\U{2029}', '\U{202F}', '\U{205F}', '\U{3000}', '\U{FEFF}'}
  }

  /** A string with at least one visible character: both `s.trim()` being truthy and `/\S/.test(s)`. */
  predicate Nonblank(s: string) {
    exists i :: 0 <= i < |s| && !IsSpace(s[i])
  }
}
