/** Host names and how they are normalised (src/util.rs). */
module Hostnames {
  import opened Basics

  // ----- trimming -----

  /** The characters that Rust's str::trim removes. */
  predicate Whitespace(c: char) {
    || '\t' <= c <= '\r' || c == ' ' || c == '\U{85}' || c == '\U{A0}' || c == '\U{1680}'
    || '\U{2000}' <= c <= '\U{200A}' || c == '\U{2028}' || c == '\U{2029}' || c == '\U{202F}' || c == '\U{205F}'
    || c == '\U{3000}'
  }

  function TrimStart(s: string, drop: char -> bool): (r: string)
    ensures |r| <= |s|
    ensures r != "" ==> !drop(r[0])
  {
    if s != "" && drop(s[0]) then TrimStart(s[1..], drop) else s
  }

  function TrimEnd(s: string, drop: char -> bool): (r: string)
    ensures r <= s
    ensures r != "" ==> !drop(r[|r| - 1])
  {
    if s != "" && drop(s[|s| - 1]) then TrimEnd(s[..|s| - 1], drop) else s
  }

  function Trim(s: string): (r: string)
    ensures |r| <= |s|
  {
    TrimEnd(TrimStart(s, Whitespace), Whitespace)
  }

  function Lower(s: string): (r: string)
    ensures |r| == |s|
  {
    seq(|s|, i requires 0 <= i < |s| => if 'A' <= s[i] <= 'Z' then s[i] - 'A' + 'a' else s[i])
  }

  // ----- validity -----

  predicate Alphanumeric(c: char) {
    '0' <= c <= '9' || 'a' <= c <= 'z' || 'A' <= c <= 'Z'
  }

  predicate ValidLabel(s: string) {
    && 1 <= |s| <= 63 && Alphanumeric(s[0]) && Alphanumeric(s[|s| - 1])
    && forall i :: 0 <= i < |s| ==> Alphanumeric(s[i]) || s[i] == '-'
  }

  function SplitDots(s: string): (r: seq<string>)
    ensures r != []
  {
    if s == "" then [""]
    else
      var rest := SplitDots(s[1..]);
      if s[0] == '.' then [""] + rest else [[s[0]] + rest[0]] + rest[1..]
  }

  predicate ValidFqdn(s: string) {
    s != "" && |s| <= 253 && forall l :: l in SplitDots(s) ==> ValidLabel(l)
  }

  function NormalizeHostname(name: string): (r: Option<string>)
    ensures r.Some? ==> |r.value| <= |name|
  {
    var candidate := Lower(TrimEnd(Trim(name), c => c == '.'));
    if ValidFqdn(candidate) && '.' in candidate then Some(candidate) else None
  }

  // ----- scope -----

  predicate EndsWith(s: string, suffix: string) {
    |suffix| <= |s| && s[|s| - |suffix|..] == suffix
  }

  predicate InScope(name: string, root: string) {
    name == root || EndsWith(name, "." + root)
  }

  function NormalizeObservedName(name: string, domain: string): Option<string> {
    var candidate := NormalizeHostname(name);
    if candidate.Some? && candidate.value != domain && EndsWith(candidate.value, "." + domain) then candidate else None
  }
}
