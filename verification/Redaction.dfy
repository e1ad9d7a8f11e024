/**
 Streaming redaction of secrets (benchmarks/redact.py). A rewriter that sees its input in chunks and carries a
 short tail writes exactly what a single pass over the whole text would write.
 */
module Redaction {
  import opened Basics
  import opened Orders

  type Bytes = seq<byte>

  /** The text that replaces a secret: [REDACTED]. */
  const REPLACEMENT: Bytes := [91, 82, 69, 68, 65, 67, 84, 69, 68, 93]

  /** The length of the longest secret that begins the text, or 0. */
  function MatchLength(secrets: seq<Bytes>, t: Bytes): (n: nat)
    ensures n <= |t|
  {
    if secrets == [] then 0
    else Max(MatchLength(secrets[1..], t), if secrets[0] <= t then |secrets[0]| else 0)
  }

  /** The length of the match at the start of a text. */
  type Matcher = Bytes -> nat

  function MatcherOf(secrets: seq<Bytes>): Matcher { t => MatchLength(secrets, t) }

  /** m gives the matches of these secrets. */
  ghost predicate Matches(m: Matcher, secrets: seq<Bytes>) {
    forall t {:trigger MatchLength(secrets, t)} :: m(t) == MatchLength(secrets, t)
  }

  predicate Hit(m: Matcher, t: Bytes) { 0 < m(t) <= |t| }

  /** The one-shot rewrite: leftmost first, longest at each place, never looking inside a replacement. */
  function Redact(m: Matcher, t: Bytes): Bytes
    decreases |t|
  {
    if t == [] then []
    else if Hit(m, t) then REPLACEMENT + Redact(m, t[m(t)..])
    else [t[0]] + Redact(m, t[1..])
  }

  /** With real secrets a hit is a match. */
  lemma HitsMatch(m: Matcher, secrets: seq<Bytes>, t: Bytes)
    requires Matches(m, secrets)
    ensures m(t) == MatchLength(secrets, t) <= |t| && (Hit(m, t) <==> MatchLength(secrets, t) > 0)
  {
    assert m(t) == MatchLength(secrets, t);
  }

  lemma {:induction false} MatchIsASecret(secrets: seq<Bytes>, t: Bytes)
    requires MatchLength(secrets, t) > 0
    ensures t[..MatchLength(secrets, t)] in secrets
  {
    var n := MatchLength(secrets, t);
    if secrets[0] <= t && n == |secrets[0]| {
      assert t[..n] == secrets[0];
    } else {
      MatchIsASecret(secrets[1..], t);
    }
  }

  lemma {:induction false} MatchIsLongest(secrets: seq<Bytes>, t: Bytes, s: Bytes)
    requires s in secrets && s <= t
    ensures |s| <= MatchLength(secrets, t)
  {
    if s != secrets[0] {
      MatchIsLongest(secrets[1..], t, s);
    }
  }

  /** No secret begins at any of the first n positions. */
  predicate Quiet(m: Matcher, t: Bytes, n: nat)
    requires n <= |t|
  {
    forall i {:trigger t[i..]} :: 0 <= i < n ==> !Hit(m, t[i..])
  }

  lemma QuietTail(m: Matcher, t: Bytes, n: nat)
    requires 0 < n <= |t|
    ensures Quiet(m, t, n) <==> !Hit(m, t) && Quiet(m, t[1..], n - 1)
  {
    assert t[0..] == t;
    forall i | 1 <= i < n ensures t[i..] == t[1..][i - 1..] { }
    if !Hit(m, t) && Quiet(m, t[1..], n - 1) {
      forall i | 0 <= i < n ensures !Hit(m, t[i..]) {
        if i > 0 { assert !Hit(m, t[1..][i - 1..]); }
      }
    }
    if Quiet(m, t, n) {
      forall i | 0 <= i < n - 1 ensures !Hit(m, t[1..][i..]) {
        assert t[i + 1..] == t[1..][i..];
      }
    }
  }

  /** The leftmost position at which a secret begins, or the end of the text. */
  function FirstHit(m: Matcher, t: Bytes): (h: nat)
    ensures h <= |t|
  {
    if t == [] || Hit(m, t) then 0 else 1 + FirstHit(m, t[1..])
  }

  lemma {:induction false} FirstHitIsFirst(m: Matcher, t: Bytes)
    ensures Quiet(m, t, FirstHit(m, t))
    ensures FirstHit(m, t) < |t| ==> Hit(m, t[FirstHit(m, t)..])
  {
    var h := FirstHit(m, t);
    if h == 0 {
      assert t[0..] == t;
    } else {
      FirstHitIsFirst(m, t[1..]);
      QuietTail(m, t, h);
      assert t[h..] == t[1..][h - 1..];
    }
  }

  lemma CopyOne(b: byte, front: Bytes, rest: Bytes)
    ensures [b] + (front + rest) == [b] + front + rest
  {
  }

  /** Bytes before the first hit are copied. */
  lemma {:induction false} CopyStep(m: Matcher, t: Bytes, n: nat)
    requires n <= |t| && Quiet(m, t, n)
    ensures Redact(m, t) == t[..n] + Redact(m, t[n..])
  {
    if n == 0 {
      assert t[0..] == t;
    } else {
      QuietTail(m, t, n);
      CopyStep(m, t[1..], n - 1);
      CopyOne(t[0], t[1..][..n - 1], Redact(m, t[n..]));
      assert t[1..][n - 1..] == t[n..];
      assert t[..n] == [t[0]] + t[1..][..n - 1];
    }
  }

  // ----- the rewrite never keeps a secret -----

  datatype Piece = Kept(text: Bytes) | Secret(text: Bytes)

  function Plan(m: Matcher, t: Bytes): seq<Piece>
    decreases |t|, 1
  {
    PlanFrom(m, t, FirstHit(m, t))
  }

  /** The plan when the first hit is at h. */
  function PlanFrom(m: Matcher, t: Bytes, h: nat): seq<Piece>
    requires h <= |t|
    decreases |t|, 0
  {
    if Hit(m, t[h..]) then [Kept(t[..h]), Secret(t[h..h + m(t[h..])])] + Plan(m, t[h + m(t[h..])..])
    else [Kept(t)]
  }

  function Original(pieces: seq<Piece>): Bytes {
    if pieces == [] then [] else pieces[0].text + Original(pieces[1..])
  }

  function Rendered(pieces: seq<Piece>): Bytes {
    if pieces == [] then []
    else (if pieces[0].Kept? then pieces[0].text else REPLACEMENT) + Rendered(pieces[1..])
  }

  predicate Contains(t: Bytes, s: Bytes) {
    exists i :: 0 <= i <= |t| && s <= t[i..]
  }

  lemma GapIsClean(m: Matcher, secrets: seq<Bytes>, t: Bytes, n: nat, s: Bytes)
    requires Matches(m, secrets) && n <= |t| && Quiet(m, t, n) && s in secrets && s != []
    ensures !Contains(t[..n], s)
  {
    forall i | 0 <= i <= n ensures !(s <= t[..n][i..]) {
      assert t[..n][i..] == t[i..n];
      if i < n {
        NoSecretHere(m, secrets, t[i..], s);
      }
      assert t[i..n] <= t[i..];
    }
  }

  lemma NoSecretHere(m: Matcher, secrets: seq<Bytes>, t: Bytes, s: Bytes)
    requires Matches(m, secrets) && !Hit(m, t) && s in secrets && s != []
    ensures !(s <= t)
  {
    HitsMatch(m, secrets, t);
    if s <= t {
      MatchIsLongest(secrets, t, s);
    }
  }

  /** One gap, one hit, and the rewrite of what follows. */
  lemma PlanStep(m: Matcher, t: Bytes, h: nat, n: nat)
    requires h < |t| && Quiet(m, t, h) && Hit(m, t[h..]) && n == m(t[h..])
    ensures Redact(m, t) == t[..h] + REPLACEMENT + Redact(m, t[h + n..])
    ensures t == t[..h] + (t[h..h + n] + t[h + n..])
  {
    CopyStep(m, t, h);
    HitIsReplaced(m, t[h..]);
    Slices(t, h, n);
    Regroup(t[..h], REPLACEMENT, Redact(m, t[h + n..]));
  }

  lemma Slices(t: Bytes, h: nat, n: nat)
    requires h + n <= |t|
    ensures t[h..][..n] == t[h..h + n] && t[h..][n..] == t[h + n..]
    ensures t == t[..h] + (t[h..h + n] + t[h + n..])
  {
  }

  lemma Regroup(a: Bytes, b: Bytes, c: Bytes)
    ensures a + (b + c) == a + b + c
  {
  }

  lemma HitIsReplaced(m: Matcher, t: Bytes)
    requires Hit(m, t)
    ensures Redact(m, t) == REPLACEMENT + Redact(m, t[m(t)..])
  {
  }

  /** Kept text contains no secret, and replaced text is one. */
  ghost predicate GoodPiece(secrets: seq<Bytes>, p: Piece) {
    match p
    case Kept(text) => forall s :: s in secrets ==> !Contains(text, s)
    case Secret(text) => text in secrets
  }

  ghost predicate GoodPlan(secrets: seq<Bytes>, pieces: seq<Piece>) {
    forall i :: 0 <= i < |pieces| ==> GoodPiece(secrets, pieces[i])
  }

  lemma GapIsGood(m: Matcher, secrets: seq<Bytes>, t: Bytes)
    requires Matches(m, secrets) && forall s :: s in secrets ==> s != []
    ensures GoodPiece(secrets, Kept(t[..FirstHit(m, t)]))
  {
    FirstHitIsFirst(m, t);
    forall s | s in secrets ensures !Contains(t[..FirstHit(m, t)], s) {
      GapIsClean(m, secrets, t, FirstHit(m, t), s);
    }
  }

  lemma WholeGap(m: Matcher, t: Bytes)
    requires FirstHit(m, t) == |t|
    ensures Original([Kept(t)]) == t && Rendered([Kept(t)]) == t && Redact(m, t) == t
  {
    FirstHitIsFirst(m, t);
    CopyStep(m, t, |t|);
    assert t[..|t|] == t && t[|t|..] == [];
    var one := [Kept(t)];
    assert one[1..] == [] && t + [] == t;
  }

  /** A text without a secret is one kept piece. */
  lemma GapRenders(m: Matcher, t: Bytes)
    requires FirstHit(m, t) == |t|
    ensures Original(Plan(m, t)) == t && Rendered(Plan(m, t)) == Redact(m, t)
  {
    WholeGap(m, t);
    assert t[..|t|] == t;
  }

  /** A text with a secret is rendered piece by piece once the rest behind the secret is. */
  lemma MatchRenders(m: Matcher, t: Bytes, h: nat, n: nat, rest: seq<Piece>)
    requires h < |t| && Quiet(m, t, h) && Hit(m, t[h..]) && n == m(t[h..])
    requires Original(rest) == t[h + n..] && Rendered(rest) == Redact(m, t[h + n..])
    ensures Original([Kept(t[..h]), Secret(t[h..h + n])] + rest) == t
    ensures Rendered([Kept(t[..h]), Secret(t[h..h + n])] + rest) == Redact(m, t)
  {
    PlanStep(m, t, h, n);
    PairedPieces(Kept(t[..h]), Secret(t[h..h + n]), rest);
  }

  /** The output renders the cut of the text. */
  lemma {:induction false} PlanRenders(m: Matcher, t: Bytes)
    ensures Original(Plan(m, t)) == t && Rendered(Plan(m, t)) == Redact(m, t)
    decreases |t|
  {
    var h := FirstHit(m, t);
    if h == |t| {
      GapRenders(m, t);
    } else {
      var n := m(t[h..]);
      FirstHitIsFirst(m, t);
      PlanRenders(m, t[h + n..]);
      MatchRenders(m, t, h, n, Plan(m, t[h + n..]));
    }
  }

  lemma HitIsASecret(m: Matcher, secrets: seq<Bytes>, t: Bytes, h: nat)
    requires Matches(m, secrets) && h < |t| && Hit(m, t[h..])
    ensures h + m(t[h..]) <= |t| && GoodPiece(secrets, Secret(t[h..h + m(t[h..])]))
  {
    HitsMatch(m, secrets, t[h..]);
    MatchIsASecret(secrets, t[h..]);
    Slices(t, h, m(t[h..]));
  }

  lemma {:induction false} PlanIsGood(m: Matcher, secrets: seq<Bytes>, t: Bytes)
    requires Matches(m, secrets) && forall s :: s in secrets ==> s != []
    ensures GoodPlan(secrets, Plan(m, t))
    decreases |t|
  {
    var h := FirstHit(m, t);
    GapIsGood(m, secrets, t);
    if h == |t| {
      assert t[..|t|] == t && Plan(m, t) == [Kept(t)];
    } else {
      FirstHitIsFirst(m, t);
      HitIsASecret(m, secrets, t, h);
      PlanIsGood(m, secrets, t[h + m(t[h..])..]);
    }
  }

  /**
   The text is cut into kept stretches and secrets; the output renders the cut; no kept stretch contains a
   secret, and everything replaced is one.
   */
  lemma PlanIsSound(m: Matcher, secrets: seq<Bytes>, t: Bytes)
    requires Matches(m, secrets) && forall s :: s in secrets ==> s != []
    ensures Original(Plan(m, t)) == t
    ensures Rendered(Plan(m, t)) == Redact(m, t)
    ensures GoodPlan(secrets, Plan(m, t))
  {
    PlanRenders(m, t);
    PlanIsGood(m, secrets, t);
  }

  lemma PairedPieces(a: Piece, b: Piece, rest: seq<Piece>)
    ensures Original([a, b] + rest) == a.text + (b.text + Original(rest))
    ensures a.Kept? && b.Secret? ==> Rendered([a, b] + rest) == a.text + REPLACEMENT + Rendered(rest)
  {
    var all := [a, b] + rest;
    assert all[1..] == [b] + rest && ([b] + rest)[1..] == rest;
  }

  // ----- look-ahead -----

  function Longest(secrets: seq<Bytes>): nat {
    if secrets == [] then 0 else Max(|secrets[0]|, Longest(secrets[1..]))
  }

  /** What follows cannot change a match once as many bytes as the longest secret are present. */
  lemma {:induction false} LookAheadSuffices(secrets: seq<Bytes>, t: Bytes, more: Bytes)
    requires |t| >= Longest(secrets)
    ensures MatchLength(secrets, t + more) == MatchLength(secrets, t)
  {
    if secrets != [] {
      LookAheadSuffices(secrets[1..], t, more);
      assert (t + more)[..|t|] == t;
      if secrets[0] <= t + more {
        assert secrets[0] == (t + more)[..|secrets[0]|] == t[..|secrets[0]|];
      }
    }
  }

  // ----- the program -----

  /** `bytes.find`: the first occurrence at or after from, or -1. */
  function Find(t: Bytes, s: Bytes, from: nat): (r: int)
    requires from <= |t|
    ensures r == -1 || from <= r <= |t| - |s|
    ensures r >= 0 ==> s <= t[r..]
    ensures forall i :: from <= i <= |t| && (r < 0 || i < r) ==> !(s <= t[i..])
    decreases |t| - from
  {
    if s <= t[from..] then from else if from == |t| then -1 else Find(t, s, from + 1)
  }

  /** The least (position, -length) among the secrets found at or after from. */
  method NextMatch(buffer: Bytes, from: nat, secrets: seq<Bytes>) returns (index: int, length: nat)
    requires from <= |buffer| && forall s :: s in secrets ==> s != []
    ensures index == -1 || from <= index < |buffer|
    ensures forall i :: from <= i < (if index < 0 then |buffer| else index) ==> MatchLength(secrets, buffer[i..]) == 0
    ensures index >= 0 ==> length == MatchLength(secrets, buffer[index..]) && length > 0
  {
    index, length := -1, 0;
    var k := |secrets|;
    while k > 0
      invariant 0 <= k <= |secrets|
      invariant index == -1 || from <= index < |buffer|
      invariant forall i :: from <= i < (if index < 0 then |buffer| else index) ==> MatchLength(secrets[k..], buffer[i..]) == 0
      invariant index >= 0 ==> length == MatchLength(secrets[k..], buffer[index..]) && length > 0
    {
      k := k - 1;
      var s := secrets[k];
      assert s in secrets && secrets[k..][0] == s && secrets[k..][1..] == secrets[k + 1..];
      var found := Find(buffer, s, from);
      if found >= 0 && (index < 0 || found < index || (found == index && |s| > length)) {
        index, length := found, |s|;
      }
    }
    assert secrets[0..] == secrets;
  }

  /** What `read` delivers before it first returns nothing. */
  function Delivered(chunks: seq<Bytes>): Bytes {
    if chunks == [] || chunks[0] == [] then [] else chunks[0] + Delivered(chunks[1..])
  }

  /** Enough bytes follow the limit to judge every match before it, or nothing more will come. */
  predicate Judgeable(secrets: seq<Bytes>, buffer: Bytes, limit: nat, rest: Bytes) {
    limit <= |buffer| && (rest == [] || limit + Longest(secrets) <= |buffer| + 1)
  }

  lemma SameMatch(m: Matcher, secrets: seq<Bytes>, buffer: Bytes, limit: nat, rest: Bytes, i: nat)
    requires Matches(m, secrets) && Judgeable(secrets, buffer, limit, rest) && i < limit
    ensures m(buffer[i..] + rest) == m(buffer[i..])
  {
    HitsMatch(m, secrets, buffer[i..]);
    HitsMatch(m, secrets, buffer[i..] + rest);
    if rest == [] {
      assert buffer[i..] + rest == buffer[i..];
    } else {
      LookAheadSuffices(secrets, buffer[i..], rest);
    }
  }

  /** Writing output leaves the rewrite of pending to be written. */
  predicate Owes(m: Matcher, goal: Bytes, output: Bytes, pending: Bytes) {
    goal == output + Redact(m, pending)
  }

  /** No secret begins at the positions from..stop of the buffer. */
  predicate QuietBetween(m: Matcher, buffer: Bytes, from: nat, stop: nat)
    requires stop <= |buffer|
  {
    forall i {:trigger buffer[i..]} :: from <= i < stop ==> !Hit(m, buffer[i..])
  }

  lemma StillQuiet(m: Matcher, secrets: seq<Bytes>, buffer: Bytes, limit: nat, rest: Bytes, from: nat, stop: nat)
    requires Matches(m, secrets) && Judgeable(secrets, buffer, limit, rest) && from <= stop <= limit
    requires QuietBetween(m, buffer, from, stop)
    ensures Quiet(m, buffer[from..] + rest, stop - from)
  {
    var t := buffer[from..] + rest;
    forall i | 0 <= i < stop - from ensures !Hit(m, t[i..]) {
      SameMatch(m, secrets, buffer, limit, rest, from + i);
      HitsMatch(m, secrets, buffer[from + i..]);
      assert t[i..] == buffer[from + i..] + rest;
    }
  }

  lemma SlicesOfSum(buffer: Bytes, rest: Bytes, from: nat, stop: nat)
    requires from <= stop <= |buffer|
    ensures (buffer[from..] + rest)[..stop - from] == buffer[from..stop]
    ensures (buffer[from..] + rest)[stop - from..] == buffer[stop..] + rest
  {
  }

  /** A stretch without a hit is owed as it stands. */
  lemma PayGap(m: Matcher, secrets: seq<Bytes>, goal: Bytes, output: Bytes, buffer: Bytes, limit: nat, rest: Bytes, from: nat, stop: nat)
    requires Matches(m, secrets) && Judgeable(secrets, buffer, limit, rest) && from <= stop <= limit
    requires QuietBetween(m, buffer, from, stop)
    requires Owes(m, goal, output, buffer[from..] + rest)
    ensures Owes(m, goal, output + buffer[from..stop], buffer[stop..] + rest)
  {
    var t := buffer[from..] + rest;
    StillQuiet(m, secrets, buffer, limit, rest, from, stop);
    CopyStep(m, t, stop - from);
    SlicesOfSum(buffer, rest, from, stop);
  }

  /** A hit is owed the replacement. */
  lemma PayHit(m: Matcher, secrets: seq<Bytes>, goal: Bytes, output: Bytes, buffer: Bytes, limit: nat, rest: Bytes, index: nat)
    requires Matches(m, secrets) && Judgeable(secrets, buffer, limit, rest) && index < limit && Hit(m, buffer[index..])
    requires Owes(m, goal, output, buffer[index..] + rest)
    ensures index + m(buffer[index..]) <= |buffer|
    ensures Owes(m, goal, output + REPLACEMENT, buffer[index + m(buffer[index..])..] + rest)
  {
    var t, length := buffer[index..] + rest, m(buffer[index..]);
    SameMatch(m, secrets, buffer, limit, rest, index);
    HitIsReplaced(m, t);
    SlicesOfSum(buffer, rest, index, index + length);
  }

  /** NextMatch, in terms of hits. */
  method NextHit(buffer: Bytes, from: nat, limit: nat, secrets: seq<Bytes>, ghost m: Matcher) returns (stop: nat, length: nat)
    requires from <= limit <= |buffer| && Matches(m, secrets) && forall s :: s in secrets ==> s != []
    ensures from <= stop <= limit && QuietBetween(m, buffer, from, stop)
    ensures stop < limit ==> Hit(m, buffer[stop..]) && length == m(buffer[stop..])
  {
    var index;
    index, length := NextMatch(buffer, from, secrets);
    stop := if index < 0 || index >= limit then limit else index;
    forall i {:trigger buffer[i..]} | from <= i < stop ensures !Hit(m, buffer[i..]) {
      HitsMatch(m, secrets, buffer[i..]);
    }
    HitsMatch(m, secrets, buffer[stop..]);
  }

  /** One pass of the inner loop: rewrites the buffer up to the limit. */
  method RewriteBuffer(buffer: Bytes, limit: nat, secrets: seq<Bytes>, ghost m: Matcher, ghost rest: Bytes)
    returns (output: Bytes, cursor: nat)
    requires Matches(m, secrets) && forall s :: s in secrets ==> s != []
    requires Judgeable(secrets, buffer, limit, rest)
    ensures limit <= cursor <= |buffer|
    ensures Owes(m, Redact(m, buffer + rest), output, buffer[cursor..] + rest)
  {
    output, cursor := [], 0;
    ghost var goal := Redact(m, buffer + rest);
    assert buffer[0..] == buffer;
    while cursor < limit
      invariant cursor <= |buffer|
      invariant Owes(m, goal, output, buffer[cursor..] + rest)
    {
      var stop, length := NextHit(buffer, cursor, limit, secrets, m);
      PayGap(m, secrets, goal, output, buffer, limit, rest, cursor, stop);
      output := output + buffer[cursor..stop];
      cursor := stop;
      if stop == limit {
        break;
      }
      PayHit(m, secrets, goal, output, buffer, limit, rest, cursor);
      output := output + REPLACEMENT;
      cursor := cursor + length;
    }
  }

  lemma StreamStarts(m: Matcher, chunks: seq<Bytes>)
    ensures Owes(m, Redact(m, Delivered(chunks)), [], [] + Delivered(chunks[0..]))
  {
    assert chunks[0..] == chunks && [] + Delivered(chunks) == Delivered(chunks);
  }

  lemma Reads(buffer: Bytes, chunks: seq<Bytes>, k: nat)
    requires k < |chunks| && chunks[k] != []
    ensures buffer + Delivered(chunks[k..]) == (buffer + chunks[k]) + Delivered(chunks[k + 1..])
  {
    assert chunks[k..][1..] == chunks[k + 1..];
  }

  /** Rewrites what one chunk makes judgeable; the tail that is kept is shorter than the longest secret. */
  method Feed(buffer: Bytes, chunk: Bytes, secrets: seq<Bytes>, ghost m: Matcher, maximum: nat, ghost goal: Bytes, ghost written: Bytes, ghost rest: Bytes)
    returns (output: Bytes, tail: Bytes)
    requires Matches(m, secrets) && maximum == Longest(secrets) > 0 && forall s :: s in secrets ==> s != []
    requires Owes(m, goal, written, buffer + chunk + rest)
    ensures Owes(m, goal, written + output, tail + rest) && |tail| < maximum
  {
    var all := buffer + chunk;
    if |all| + 1 <= maximum {
      assert written + [] == written;
      return [], all;
    }
    var cursor;
    output, cursor := RewriteBuffer(all, |all| + 1 - maximum, secrets, m, rest);
    tail := all[cursor..];
  }

  /** After the last chunk everything is rewritten. */
  method Finish(buffer: Bytes, secrets: seq<Bytes>, ghost m: Matcher, ghost goal: Bytes, ghost written: Bytes) returns (output: Bytes)
    requires Matches(m, secrets) && forall s :: s in secrets ==> s != []
    requires Owes(m, goal, written, buffer)
    ensures written + output == goal
  {
    var cursor;
    assert buffer + [] == buffer;
    output, cursor := RewriteBuffer(buffer, |buffer|, secrets, m, []);
    assert buffer[cursor..] + [] == [];
  }

  /** Reads one chunk. */
  method FeedChunk(
      buffer: Bytes, chunks: seq<Bytes>, k: nat, secrets: seq<Bytes>, ghost m: Matcher, maximum: nat, ghost goal: Bytes, ghost written: Bytes)
    returns (output: Bytes, tail: Bytes)
    requires k < |chunks| && chunks[k] != []
    requires Matches(m, secrets) && maximum == Longest(secrets) > 0 && forall s :: s in secrets ==> s != []
    requires Owes(m, goal, written, buffer + Delivered(chunks[k..]))
    ensures Owes(m, goal, written + output, tail + Delivered(chunks[k + 1..])) && |tail| < maximum
  {
    Reads(buffer, chunks, k);
    output, tail := Feed(buffer, chunks[k], secrets, m, maximum, goal, written, Delivered(chunks[k + 1..]));
  }

  lemma StreamEnds(buffer: Bytes, chunks: seq<Bytes>, k: nat)
    requires k <= |chunks| && (k < |chunks| ==> chunks[k] == [])
    ensures buffer + Delivered(chunks[k..]) == buffer
  {
    assert Delivered(chunks[k..]) == [];
  }

  /** How many chunks are read before the first empty one. */
  function ChunksRead(chunks: seq<Bytes>): nat {
    if chunks == [] || chunks[0] == [] then 0 else 1 + ChunksRead(chunks[1..])
  }

  lemma {:induction false} ChunksReadIs(chunks: seq<Bytes>, k: nat)
    requires k <= |chunks| && (forall i :: 0 <= i < k ==> chunks[i] != []) && (k < |chunks| ==> chunks[k] == [])
    ensures ChunksRead(chunks) == k
  {
    if k > 0 {
      ChunksReadIs(chunks[1..], k - 1);
    }
  }

  /** What has been written after a read, and the tail that is carried over to the next one. */
  datatype Carried = Carried(written: Bytes, tail: Bytes)

  /** The rest of the rewrite is that of the tail and of what is still to be read; the tail is short. */
  ghost predicate Carries(m: Matcher, chunks: seq<Bytes>, maximum: nat, k: nat, c: Carried)
    requires k <= |chunks|
  {
    |c.tail| < maximum && Redact(m, Delivered(chunks)) == c.written + Redact(m, c.tail + Delivered(chunks[k..]))
  }

  ghost predicate AllCarry(m: Matcher, chunks: seq<Bytes>, maximum: nat, carried: seq<Carried>)
  {
    && |carried| <= |chunks|
    && forall i {:trigger carried[i]} :: 0 <= i < |carried| ==> Carries(m, chunks, maximum, i + 1, carried[i])
  }

  lemma OneMoreRead(m: Matcher, chunks: seq<Bytes>, maximum: nat, carried: seq<Carried>, c: Carried)
    requires AllCarry(m, chunks, maximum, carried) && |carried| < |chunks| && Carries(m, chunks, maximum, |carried| + 1, c)
    ensures AllCarry(m, chunks, maximum, carried + [c])
  {
    var more := carried + [c];
    forall i {:trigger more[i]} | 0 <= i < |more| ensures Carries(m, chunks, maximum, i + 1, more[i]) {
      if i < |carried| { assert more[i] == carried[i]; }
    }
  }

  /** One read of the loop. */
  method ReadOne(
      before: Bytes, buffer: Bytes, chunks: seq<Bytes>, k: nat, secrets: seq<Bytes>, ghost m: Matcher, maximum: nat,
      ghost goal: Bytes, ghost carried: seq<Carried>)
    returns (written: Bytes, tail: Bytes, ghost more: seq<Carried>)
    requires k < |chunks| && chunks[k] != [] && goal == Redact(m, Delivered(chunks))
    requires Matches(m, secrets) && maximum == Longest(secrets) > 0 && forall s :: s in secrets ==> s != []
    requires Owes(m, goal, before, buffer + Delivered(chunks[k..])) && |carried| == k && AllCarry(m, chunks, maximum, carried)
    ensures Owes(m, goal, written, tail + Delivered(chunks[k + 1..])) && |more| == k + 1 && AllCarry(m, chunks, maximum, more)
  {
    var output;
    output, tail := FeedChunk(buffer, chunks, k, secrets, m, maximum, goal, before);
    written := before + output;
    OneMoreRead(m, chunks, maximum, carried, Carried(written, tail));
    more := carried + [Carried(written, tail)];
  }

  /** The loop over the chunks, up to the first empty one. */
  method ReadChunks(chunks: seq<Bytes>, secrets: seq<Bytes>, ghost m: Matcher, maximum: nat, ghost goal: Bytes)
    returns (written: Bytes, buffer: Bytes, ghost carried: seq<Carried>)
    requires goal == Redact(m, Delivered(chunks))
    requires Matches(m, secrets) && maximum == Longest(secrets) > 0 && forall s :: s in secrets ==> s != []
    ensures Owes(m, goal, written, buffer)
    ensures |carried| == ChunksRead(chunks) && AllCarry(m, chunks, maximum, carried)
  {
    var k := 0;
    written, buffer, carried := [], [], [];
    StreamStarts(m, chunks);
    while k < |chunks| && chunks[k] != []
      invariant k <= |chunks| && forall i :: 0 <= i < k ==> chunks[i] != []
      invariant Owes(m, goal, written, buffer + Delivered(chunks[k..]))
      invariant |carried| == k && AllCarry(m, chunks, maximum, carried)
    {
      written, buffer, carried := ReadOne(written, buffer, chunks, k, secrets, m, maximum, goal, carried);
      k := k + 1;
    }
    ChunksReadIs(chunks, k);
    StreamEnds(buffer, chunks, k);
  }

  lemma {:induction false} LongestIsPositive(secrets: seq<Bytes>)
    requires secrets != [] && secrets[0] != []
    ensures Longest(secrets) > 0
  {
  }

  /**
   The streaming rewriter. For every way of cutting the input into chunks it writes the one-shot rewrite. After every
   read the tail it carries over is shorter than the longest secret, and it is all that is owed of what was read.
   */
  method RedactStream(chunks: seq<Bytes>, secrets: seq<Bytes>) returns (written: Bytes, ghost carried: seq<Carried>)
    requires secrets != [] && forall s :: s in secrets ==> s != []
    ensures written == Redact(MatcherOf(secrets), Delivered(chunks))
    ensures |carried| == ChunksRead(chunks) && AllCarry(MatcherOf(secrets), chunks, Longest(secrets), carried)
  {
    ghost var m := MatcherOf(secrets);
    ghost var goal := Redact(m, Delivered(chunks));
    assert secrets[0] in secrets;
    LongestIsPositive(secrets);
    var maximum, buffer := Longest(secrets), [];
    written, buffer, carried := ReadChunks(chunks, secrets, m, maximum, goal);
    var output := Finish(buffer, secrets, m, goal, written);
    written := written + output;
  }
}
