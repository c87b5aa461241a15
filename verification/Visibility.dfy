/** The one visibility rule: may a caller scoped to allowed see something joining two namespaces? */
module Visibility {

  /** The empty namespace is owned by nobody: the host, the internet, reserved identities. */
  predicate PairVisible(src: string, dst: string, allowed: set<string>, requireBoth: bool) {
    var srcOk := src != "" && src in allowed;
    var dstOk := dst != "" && dst in allowed;
    if requireBoth then
      var srcOkOrEmpty := src == "" || src in allowed;
      var dstOkOrEmpty := dst == "" || dst in allowed;
      srcOkOrEmpty && dstOkOrEmpty && (srcOk || dstOk)
    else
      srcOk || dstOk
  }

  /** A namespace somebody owns and the caller may not see. */
  predicate Foreign(ns: string, allowed: set<string>) {
    ns != "" && ns !in allowed
  }

  /** Strict visibility is lenient visibility with no foreign end. */
  lemma StrictIsLenientWithoutForeigners(src: string, dst: string, allowed: set<string>)
    ensures PairVisible(src, dst, allowed, true)
       <==> PairVisible(src, dst, allowed, false) && !Foreign(src, allowed) && !Foreign(dst, allowed)
  {
  }
}
