/** Where the header block of a WARC record ends (src/archive_intelligence.rs). */
module WarcHeaderEnds {
  import opened Basics
  import opened WarcFraming

  /** An empty line written with these bytes stands at p, within the limit for headers. */
  predicate EmptyLine(data: Bytes, start: nat, maxHeaderBytes: nat, p: nat, ending: Bytes) {
    start <= p && p + |ending| <= start + maxHeaderBytes && At(data, p, ending)
  }

  lemma WindowIs(data: Bytes, start: nat, maxHeaderBytes: nat, ending: Bytes, q: nat)
    requires ending != []
    ensures At(Window(data, start, maxHeaderBytes), q, ending) <==> EmptyLine(data, start, maxHeaderBytes, start + q, ending)
  {
    var window := Window(data, start, maxHeaderBytes);
    if start <= |data| && q + |ending| <= |window| {
      var a, b := window[q..q + |ending|], data[start + q..start + q + |ending|];
      assert |a| == |b| && forall k :: 0 <= k < |a| ==> a[k] == b[k];
    }
  }

  /** The first empty line within the limit that is written with these bytes stands at p. */
  ghost predicate FirstEmptyLineAt(data: Bytes, start: nat, maxHeaderBytes: nat, p: nat, ending: Bytes) {
    EmptyLine(data, start, maxHeaderBytes, p, ending) && forall q: nat :: q < p ==> !EmptyLine(data, start, maxHeaderBytes, q, ending)
  }

  /**
   A header block ends at the first CRLF empty line within the limit; without any, at the first LF empty line; without
   either, nowhere.
   */
  lemma HeaderEndsAtEmptyLine(data: Bytes, start: nat, maxHeaderBytes: nat)
    ensures match HeaderBounds(data, start, maxHeaderBytes)
      case Some(b) =>
        || (b.bodyStart == b.headerEnd + 4 && FirstEmptyLineAt(data, start, maxHeaderBytes, b.headerEnd, [13, 10, 13, 10]))
        || (b.bodyStart == b.headerEnd + 2 && FirstEmptyLineAt(data, start, maxHeaderBytes, b.headerEnd, [10, 10])
            && forall p: nat :: !EmptyLine(data, start, maxHeaderBytes, p, [13, 10, 13, 10]))
      case None =>
        forall p: nat ::
          !EmptyLine(data, start, maxHeaderBytes, p, [13, 10, 13, 10]) && !EmptyLine(data, start, maxHeaderBytes, p, [10, 10])
  {
    FirstEmptyLine(data, start, maxHeaderBytes, CrlfTwice());
    FirstEmptyLine(data, start, maxHeaderBytes, LfTwice());
  }

  lemma FirstEmptyLine(data: Bytes, start: nat, maxHeaderBytes: nat, ending: Bytes)
    requires ending != []
    ensures match FirstAt(Window(data, start, maxHeaderBytes), 0, ending)
      case Some(n) => FirstEmptyLineAt(data, start, maxHeaderBytes, start + n, ending)
      case None => forall p: nat :: !EmptyLine(data, start, maxHeaderBytes, p, ending)
  {
    var window := Window(data, start, maxHeaderBytes);
    FirstAtFinds(window, 0, ending);
    forall p: nat | EmptyLine(data, start, maxHeaderBytes, p, ending) ensures At(window, p - start, ending) {
      WindowIs(data, start, maxHeaderBytes, ending, p - start);
    }
    var r := FirstAt(window, 0, ending);
    if r.Some? { WindowIs(data, start, maxHeaderBytes, ending, r.value); }
  }
}
