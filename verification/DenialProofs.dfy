/**
 Circular denial intervals and the DNSSEC evidence classifier (src/dnssec_proof.rs; section 3.1.7 of RFC 5155).
 Signature validation and NSEC3 hashing happen elsewhere; their results are inputs here.
 */
module DenialProofs {
  import opened Basics
  import opened Orders
  import opened DnsNames
  import Ranking

  const TYPE_NXNAME := 128
  const TYPE_RRSIG := 46
  const TYPE_NSEC := 47
  const TYPE_NSEC3 := 50

  datatype DenialSynthesis = Conventional | Compact | Unknown

  datatype NsecProof = NsecProof(
    owner: seq<byte>, nextName: seq<byte>, typeBitmap: set<nat>,
    signatureValidated: bool, synthesis: DenialSynthesis)

  datatype Nsec3Proof = Nsec3Proof(
    ownerHash: seq<byte>, nextHash: seq<byte>, qnameHash: seq<byte>, typeBitmap: set<nat>,
    signatureValidated: bool, optOut: bool, synthesis: DenialSynthesis)

  datatype ProofInput = ProofInput(
    qname: seq<byte>, qtype: nat, validatedExactPositiveAnswer: bool, rrsigLabelsEqual: bool,
    validatedEntNodata: bool, nsec: seq<NsecProof>, nsec3: seq<Nsec3Proof>)

  datatype OwnerState = Exists | DoesNotExist | EmptyNonTerminal | Inconclusive

  datatype ProofKind =
    | ValidatedPositiveAnswer | NxnameNsec | NxnameNsec3 | NsecExactOwner | NsecRangeDenial
    | Nsec3ExactOwner | Nsec3RangeDenial | EntNodata

  datatype CacheEligibility = Never | ExactName | Range

  datatype Warning =
    | InvalidQname | UnvalidatedEvidenceIgnored | RrsigLabelsEqualityIgnored | AmbiguousCompactNodata
    | Nsec3OptOutCoverageIgnored | InvalidNsecInterval | InvalidNsec3Hash | ConflictingValidatedProofs

  datatype Candidate = Candidate(state: OwnerState, kind: ProofKind, cache: CacheEligibility)

  datatype Assessment = Assessment(
    state: OwnerState, proofs: set<ProofKind>, warnings: set<Warning>, liveEligible: bool,
    traversalHint: bool, aggressiveCache: CacheEligibility, compactDenialSeen: bool)

  // ----- intervals on a ring -----

  /** q lies strictly between owner and next; equal end points leave the whole ring but owner. */
  predicate Covers<T>(cmp: (T, T) -> Ordering, owner: T, next: T, q: T) {
    cmp(owner, q) != Equal &&
    match cmp(owner, next)
    case Less => cmp(owner, q) == Less && cmp(q, next) == Less
    case Greater => cmp(owner, q) == Less || cmp(q, next) == Less
    case Equal => true
  }

  ghost predicate Chain<T(!new)>(cmp: (T, T) -> Ordering, owners: seq<T>) {
    && owners != []
    && forall i, j :: 0 <= i < j < |owners| ==> cmp(owners[i], owners[j]) == Less
  }

  /** The owner that follows owners[i] on the ring. */
  function Successor<T>(owners: seq<T>, i: nat): T
    requires i < |owners|
  {
    if i + 1 == |owners| then owners[0] else owners[i + 1]
  }

  /** Record i of the chain decides q: it is q's own record or its interval covers q. */
  predicate Decides<T(==)>(cmp: (T, T) -> Ordering, owners: seq<T>, i: nat, q: T)
    requires i < |owners|
  {
    owners[i] == q || Covers(cmp, owners[i], Successor(owners, i), q)
  }

  lemma {:induction false} CutPoint<T(!new)>(cmp: (T, T) -> Ordering, owners: seq<T>, q: T) returns (p: nat)
    requires TotalOrder(cmp) && Chain(cmp, owners) && q !in owners
    ensures p <= |owners|
    ensures forall i :: 0 <= i < p ==> cmp(owners[i], q) == Less
    ensures forall i :: p <= i < |owners| ==> cmp(q, owners[i]) == Less
  {
    p := |owners|;
    while p > 0 && cmp(q, owners[p - 1]) == Less
      invariant p <= |owners|
      invariant forall i :: p <= i < |owners| ==> cmp(q, owners[i]) == Less
    {
      p := p - 1;
    }
    if p > 0 {
      assert owners[p - 1] in owners;
      assert cmp(q, owners[p - 1]) == cmp(owners[p - 1], q).Reverse();
      assert cmp(owners[p - 1], q) == Less;
    }
  }

  /** The records of a chain partition the ring: each point is decided by exactly one of them. */
  lemma RingPartition<T(!new)>(cmp: (T, T) -> Ordering, owners: seq<T>, q: T) returns (home: nat)
    requires TotalOrder(cmp) && Chain(cmp, owners)
    ensures home < |owners|
    ensures forall i :: 0 <= i < |owners| ==> (Decides(cmp, owners, i, q) <==> i == home)
    ensures owners[home] == q <==> q in owners
  {
    var n := |owners|;
    if q in owners {
      home :| 0 <= home < n && owners[home] == q;
      forall i | 0 <= i < n && i != home ensures !Decides(cmp, owners, i, q) {
        assert owners[i] != q;
        if i + 1 < n && i > home { assert cmp(owners[i + 1], q) == Greater; }
      }
    } else {
      var p := CutPoint(cmp, owners, q);
      home := if p == 0 then n - 1 else p - 1;
      forall i | 0 <= i < n ensures Decides(cmp, owners, i, q) <==> i == home {
        assert owners[i] in owners;
        assert cmp(owners[i], q) == cmp(q, owners[i]).Reverse();
        assert cmp(q, owners[0]) == cmp(owners[0], q).Reverse();
        if i + 1 < n {
          assert cmp(owners[i + 1], q) == cmp(q, owners[i + 1]).Reverse();
        } else if n > 1 {
          assert cmp(owners[i], owners[0]) == Greater;
        }
      }
    }
  }

  function NsecIntervalCoversParsed(owner: Name, nextName: seq<byte>, qname: Name): Option<bool> {
    match Parse(nextName)
    case InvalidDnsName => None
    case Parsed(next) => Some(Covers(CanonicalCompare, owner, next, qname))
  }

  predicate HashIntervalCovers(owner: Octets, next: Octets, qname: Octets) {
    Covers(CompareBytes, owner, next, qname)
  }

  // ----- NSEC3 hash labels -----

  function Upper(b: byte): byte { if 97 <= b <= 122 then b - 32 else b }

  predicate IsBase32Hex(b: byte) { 48 <= b <= 57 || 65 <= b <= 86 }

  function NormalizeHash(hash: seq<byte>): Option<Octets> {
    var up := seq(|hash|, i requires 0 <= i < |hash| => Upper(hash[i]));
    if hash == [] || exists i :: 0 <= i < |up| && !IsBase32Hex(up[i]) then None else Some(up)
  }

  datatype Hashes = Hashes(owner: Octets, next: Octets, qname: Octets)

  function NormalizedHashes(p: Nsec3Proof): Option<Hashes> {
    var o, n, q := NormalizeHash(p.ownerHash), NormalizeHash(p.nextHash), NormalizeHash(p.qnameHash);
    if o.Some? && n.Some? && q.Some? && |o.value| == |n.value| && |o.value| == |q.value|
    then Some(Hashes(o.value, n.value, q.value)) else None
  }

  // ----- what one proof contributes -----

  datatype Finding = Finding(evidence: Option<Candidate>, warning: Option<Warning>, compact: bool)

  predicate BitmapHasOwnerData(bitmap: set<nat>) {
    exists t :: t in bitmap && t !in {TYPE_RRSIG, TYPE_NSEC, TYPE_NSEC3, TYPE_NXNAME}
  }

  function ExactNodataCache(qtype: nat, bitmap: set<nat>): CacheEligibility {
    if qtype in bitmap then Never else ExactName
  }

  predicate IsCompact(bitmap: set<nat>, synthesis: DenialSynthesis) {
    TYPE_NXNAME in bitmap || synthesis == Compact
  }

  /** A validated record whose owner is the query name itself. */
  function ExactFinding(bitmap: set<nat>, synthesis: DenialSynthesis, qtype: nat, ent: bool,
                        nxname: ProofKind, exact: ProofKind): Finding {
    var compact := IsCompact(bitmap, synthesis);
    if TYPE_NXNAME in bitmap then Finding(Some(Candidate(DoesNotExist, nxname, Never)), None, compact)
    else if ent then Finding(None, None, compact)
    else if synthesis == Conventional then
      Finding(Some(Candidate(Exists, exact, ExactNodataCache(qtype, bitmap))), None, compact)
    else if synthesis == Unknown && BitmapHasOwnerData(bitmap) then
      Finding(Some(Candidate(Exists, exact, Never)), None, compact)
    else Finding(None, Some(AmbiguousCompactNodata), compact)
  }

  function NsecFinding(qname: Name, qtype: nat, ent: bool, p: NsecProof): Finding {
    if !p.signatureValidated then Finding(None, Some(UnvalidatedEvidenceIgnored), false)
    else if Parse(p.owner).InvalidDnsName? then Finding(None, Some(InvalidNsecInterval), false)
    else
      var owner, compact := Parse(p.owner).name, IsCompact(p.typeBitmap, p.synthesis);
      if CanonicalCompare(owner, qname) == Equal then
        ExactFinding(p.typeBitmap, p.synthesis, qtype, ent, NxnameNsec, NsecExactOwner)
      else if p.synthesis != Conventional then Finding(None, None, compact)
      else
        match NsecIntervalCoversParsed(owner, p.nextName, qname)
        case None => Finding(None, Some(InvalidNsecInterval), compact)
        case Some(true) => Finding(Some(Candidate(DoesNotExist, NsecRangeDenial, Range)), None, compact)
        case Some(false) => Finding(None, None, compact)
  }

  function Nsec3Finding(qtype: nat, ent: bool, p: Nsec3Proof): Finding {
    if !p.signatureValidated then Finding(None, Some(UnvalidatedEvidenceIgnored), false)
    else if NormalizedHashes(p).None? then Finding(None, Some(InvalidNsec3Hash), false)
    else
      var h, compact := NormalizedHashes(p).value, IsCompact(p.typeBitmap, p.synthesis);
      if h.owner == h.qname then
        ExactFinding(p.typeBitmap, p.synthesis, qtype, ent, NxnameNsec3, Nsec3ExactOwner)
      else if p.synthesis != Conventional || !HashIntervalCovers(h.owner, h.next, h.qname) then
        Finding(None, None, compact)
      else if p.optOut then Finding(None, Some(Nsec3OptOutCoverageIgnored), compact)
      else Finding(Some(Candidate(DoesNotExist, Nsec3RangeDenial, Range)), None, compact)
  }

  // ----- the assessment as a function of the set of findings -----

  function FlagEvidence(i: ProofInput): set<Candidate> {
    (if i.validatedExactPositiveAnswer then {Candidate(Exists, ValidatedPositiveAnswer, Never)} else {}) +
    (if i.validatedEntNodata then {Candidate(EmptyNonTerminal, EntNodata, Never)} else {})
  }

  function NsecFindings(ps: seq<NsecProof>, qname: Name, qtype: nat, ent: bool): set<Finding> {
    set p | p in ps :: NsecFinding(qname, qtype, ent, p)
  }

  function Nsec3Findings(ps: seq<Nsec3Proof>, qtype: nat, ent: bool): set<Finding> {
    set p | p in ps :: Nsec3Finding(qtype, ent, p)
  }

  function Findings(i: ProofInput, qname: Name): set<Finding> {
    NsecFindings(i.nsec, qname, i.qtype, i.validatedEntNodata) + Nsec3Findings(i.nsec3, i.qtype, i.validatedEntNodata)
  }

  function EvidenceOf(fs: set<Finding>): set<Candidate> {
    set f | f in fs && f.evidence.Some? :: f.evidence.value
  }

  function WarningsOf(fs: set<Finding>): set<Warning> {
    set f | f in fs && f.warning.Some? :: f.warning.value
  }

  predicate AnyCompact(fs: set<Finding>) {
    exists f :: f in fs && f.compact
  }

  function Evidence(i: ProofInput, qname: Name): set<Candidate> {
    FlagEvidence(i) + EvidenceOf(Findings(i, qname))
  }

  function FlagWarnings(i: ProofInput): set<Warning> {
    if i.rrsigLabelsEqual then {RrsigLabelsEqualityIgnored} else {}
  }

  function States(c: set<Candidate>): set<OwnerState> { set x | x in c :: x.state }

  predicate Conflict(c: set<Candidate>) {
    exists x, y :: x in c && y in c && x.state != y.state
  }

  function AgreedState(c: set<Candidate>): OwnerState {
    var s := States(c);
    if s == {Exists} then Exists
    else if s == {DoesNotExist} then DoesNotExist
    else if s == {EmptyNonTerminal} then EmptyNonTerminal
    else Inconclusive
  }

  function BestCache(c: set<Candidate>): CacheEligibility {
    if exists x :: x in c && x.cache == Range then Range
    else if exists x :: x in c && x.cache == ExactName then ExactName
    else Never
  }

  function Conclusion(c: set<Candidate>, warnings: set<Warning>, compact: bool): Assessment {
    var state := AgreedState(c);
    Assessment(
      state,
      set x | x in c :: x.kind,
      warnings + (if Conflict(c) then {ConflictingValidatedProofs} else {}),
      state == Exists,
      state == EmptyNonTerminal,
      if Conflict(c) then Never else BestCache(c),
      compact)
  }

  /** The verdict depends on which findings there are, not on their order or number. */
  function Assess(i: ProofInput): Assessment {
    match Parse(i.qname)
    case InvalidDnsName => Assessment(Inconclusive, {}, {InvalidQname}, false, false, Never, false)
    case Parsed(qname) =>
      var fs := Findings(i, qname);
      Conclusion(Evidence(i, qname), FlagWarnings(i) + WarningsOf(fs), AnyCompact(fs))
  }

  // ----- the classifier -----

  /** The candidate vector and the parts of the assessment that the per-proof steps update in place. */
  class Collector {
    var candidates: seq<Candidate>
    var warnings: set<Warning>
    var compactSeen: bool

    constructor ()
      ensures candidates == [] && warnings == {} && !compactSeen
    {
      candidates, warnings, compactSeen := [], {}, false;
    }

    twostate predicate Added(f: Finding)
      reads this
    {
      && candidates == old(candidates) + (if f.evidence.Some? then [f.evidence.value] else [])
      && warnings == old(warnings) + (if f.warning.Some? then {f.warning.value} else {})
      && compactSeen == (old(compactSeen) || f.compact)
    }

    method Push(state: OwnerState, kind: ProofKind, cache: CacheEligibility)
      modifies this`candidates
      ensures candidates == old(candidates) + [Candidate(state, kind, cache)]
    {
      candidates := candidates + [Candidate(state, kind, cache)];
    }

    method Warn(w: Warning)
      modifies this`warnings
      ensures warnings == old(warnings) + {w}
    {
      warnings := warnings + {w};
    }

    method ClassifyExact(bitmap: set<nat>, synthesis: DenialSynthesis, qtype: nat, ent: bool,
                         nxname: ProofKind, exact: ProofKind)
      modifies this`candidates, this`warnings
      ensures var f := ExactFinding(bitmap, synthesis, qtype, ent, nxname, exact);
              && candidates == old(candidates) + (if f.evidence.Some? then [f.evidence.value] else [])
              && warnings == old(warnings) + (if f.warning.Some? then {f.warning.value} else {})
    {
      if TYPE_NXNAME in bitmap {
        Push(DoesNotExist, nxname, Never);
        return;
      }
      if ent {
        return;
      }
      match synthesis {
        case Conventional =>
          Push(Exists, exact, ExactNodataCache(qtype, bitmap));
        case Compact =>
          Warn(AmbiguousCompactNodata);
        case Unknown =>
          if BitmapHasOwnerData(bitmap) {
            Push(Exists, exact, Never);
          } else {
            Warn(AmbiguousCompactNodata);
          }
      }
    }

    method ClassifyNsec(qname: Name, qtype: nat, ent: bool, p: NsecProof)
      modifies this
      ensures Added(NsecFinding(qname, qtype, ent, p))
    {
      if !p.signatureValidated {
        Warn(UnvalidatedEvidenceIgnored);
        return;
      }
      var parsed := ParsePresentationName(p.owner);
      if parsed.InvalidDnsName? {
        Warn(InvalidNsecInterval);
        return;
      }
      var ordering := CanonicalNameCmp(parsed.name, qname);
      compactSeen := compactSeen || IsCompact(p.typeBitmap, p.synthesis);
      if ordering == Equal {
        ClassifyExact(p.typeBitmap, p.synthesis, qtype, ent, NxnameNsec, NsecExactOwner);
        return;
      }
      if p.synthesis != Conventional {
        return;
      }
      var next := ParsePresentationName(p.nextName);
      if next.InvalidDnsName? {
        Warn(InvalidNsecInterval);
      } else if Covers(CanonicalCompare, parsed.name, next.name, qname) {
        Push(DoesNotExist, NsecRangeDenial, Range);
      }
    }

    method ClassifyNsec3(qtype: nat, ent: bool, p: Nsec3Proof)
      modifies this
      ensures Added(Nsec3Finding(qtype, ent, p))
    {
      if !p.signatureValidated {
        Warn(UnvalidatedEvidenceIgnored);
        return;
      }
      var hashes := NormalizedHashes(p);
      if hashes.None? {
        Warn(InvalidNsec3Hash);
        return;
      }
      var Hashes(owner, next, qname) := hashes.value;
      compactSeen := compactSeen || IsCompact(p.typeBitmap, p.synthesis);
      if owner == qname {
        ClassifyExact(p.typeBitmap, p.synthesis, qtype, ent, NxnameNsec3, Nsec3ExactOwner);
        return;
      }
      if p.synthesis != Conventional || !HashIntervalCovers(owner, next, qname) {
        return;
      }
      if p.optOut {
        Warn(Nsec3OptOutCoverageIgnored);
        return;
      }
      Push(DoesNotExist, Nsec3RangeDenial, Range);
    }
  }

  /** These are the fields of a collector that has seen the flags and these findings. */
  ghost predicate Holds(i: ProofInput, fs: set<Finding>, candidates: seq<Candidate>, warnings: set<Warning>, compact: bool) {
    && (set x | x in candidates) == FlagEvidence(i) + EvidenceOf(fs)
    && warnings == FlagWarnings(i) + WarningsOf(fs)
    && compact == AnyCompact(fs)
  }

  lemma HoldsMore(i: ProofInput, fs: set<Finding>, candidates: seq<Candidate>, warnings: set<Warning>, compact: bool, f: Finding)
    requires Holds(i, fs, candidates, warnings, compact)
    ensures Holds(i, fs + {f},
                  candidates + (if f.evidence.Some? then [f.evidence.value] else []),
                  warnings + (if f.warning.Some? then {f.warning.value} else {}),
                  compact || f.compact)
  {
    assert EvidenceOf(fs + {f}) == EvidenceOf(fs) + if f.evidence.Some? then {f.evidence.value} else {};
    assert WarningsOf(fs + {f}) == WarningsOf(fs) + if f.warning.Some? then {f.warning.value} else {};
    if f.compact { assert f in fs + {f}; }
    if f.evidence.Some? {
      var more := candidates + [f.evidence.value];
      assert (set x | x in more) == (set x | x in candidates) + {f.evidence.value};
    } else {
      assert candidates + [] == candidates;
    }
  }

  method MaxCache(candidates: seq<Candidate>, state: OwnerState) returns (r: CacheEligibility)
    requires forall x :: x in candidates ==> x.state == state
    ensures r == BestCache(set x | x in candidates)
  {
    r := Never;
    ghost var seen: set<Candidate> := {};
    for k := 0 to |candidates|
      invariant seen == set x | x in candidates[..k]
      invariant r == BestCache(seen)
    {
      assert candidates[..k + 1] == candidates[..k] + [candidates[k]];
      if candidates[k].state == state {
        if candidates[k].cache == Range || (candidates[k].cache == ExactName && r == Never) {
          r := candidates[k].cache;
        }
      }
      seen := seen + {candidates[k]};
    }
    assert candidates[..|candidates|] == candidates;
  }

  lemma AgreedIsFirst(c: set<Candidate>, state: OwnerState)
    requires States(c) == {state} && state != Inconclusive
    ensures AgreedState(c) == state && !Conflict(c)
  {
    forall x, y | x in c && y in c ensures x.state == y.state {
      assert x.state in States(c) && y.state in States(c);
    }
  }

  lemma SeveralStates(c: set<Candidate>)
    ensures |States(c)| > 1 <==> Conflict(c)
    ensures Conflict(c) ==> AgreedState(c) == Inconclusive
    ensures States(c) == {} <==> c == {}
  {
    var s := States(c);
    if Conflict(c) {
      var x, y :| x in c && y in c && x.state != y.state;
      assert {x.state, y.state} <= s;
      Ranking.SubsetSize({x.state, y.state}, s);
    } else if s != {} {
      var t :| t in s;
      assert s == {t};
    }
    forall x | x in c ensures x.state in s { }
  }

  lemma NsecFindingDecides(qname: Name, qtype: nat, ent: bool, p: NsecProof)
    ensures var f := NsecFinding(qname, qtype, ent, p);
            f.evidence.Some? ==> f.evidence.value.state in {Exists, DoesNotExist}
  {
  }

  lemma Nsec3FindingDecides(qtype: nat, ent: bool, p: Nsec3Proof)
    ensures var f := Nsec3Finding(qtype, ent, p);
            f.evidence.Some? ==> f.evidence.value.state in {Exists, DoesNotExist}
  {
  }

  lemma EvidenceDecides(i: ProofInput, qname: Name)
    ensures forall x :: x in Evidence(i, qname) ==> x.state != Inconclusive
  {
    forall f | f in Findings(i, qname) && f.evidence.Some? ensures f.evidence.value.state != Inconclusive {
      if p :| p in i.nsec && f == NsecFinding(qname, i.qtype, i.validatedEntNodata, p) {
        NsecFindingDecides(qname, i.qtype, i.validatedEntNodata, p);
      } else {
        var p :| p in i.nsec3 && f == Nsec3Finding(i.qtype, i.validatedEntNodata, p);
        Nsec3FindingDecides(i.qtype, i.validatedEntNodata, p);
      }
    }
  }

  lemma NsecFindingsStep(ps: seq<NsecProof>, n: nat, qname: Name, qtype: nat, ent: bool)
    requires n < |ps|
    ensures NsecFindings(ps[..n + 1], qname, qtype, ent)
         == NsecFindings(ps[..n], qname, qtype, ent) + {NsecFinding(qname, qtype, ent, ps[n])}
  {
    assert ps[..n + 1] == ps[..n] + [ps[n]];
  }

  method RunNsec(c: Collector, input: ProofInput, qname: Name)
    requires Holds(input, {}, c.candidates, c.warnings, c.compactSeen)
    modifies c
    ensures Holds(input, NsecFindings(input.nsec, qname, input.qtype, input.validatedEntNodata),
                  c.candidates, c.warnings, c.compactSeen)
  {
    ghost var fs: set<Finding> := {};
    for n := 0 to |input.nsec|
      invariant Holds(input, fs, c.candidates, c.warnings, c.compactSeen)
      invariant fs == NsecFindings(input.nsec[..n], qname, input.qtype, input.validatedEntNodata)
    {
      ghost var f := NsecFinding(qname, input.qtype, input.validatedEntNodata, input.nsec[n]);
      HoldsMore(input, fs, c.candidates, c.warnings, c.compactSeen, f);
      NsecFindingsStep(input.nsec, n, qname, input.qtype, input.validatedEntNodata);
      c.ClassifyNsec(qname, input.qtype, input.validatedEntNodata, input.nsec[n]);
      fs := fs + {f};
    }
    assert input.nsec[..|input.nsec|] == input.nsec;
  }

  lemma Nsec3FindingsStep(ps: seq<Nsec3Proof>, n: nat, qtype: nat, ent: bool)
    requires n < |ps|
    ensures Nsec3Findings(ps[..n + 1], qtype, ent) == Nsec3Findings(ps[..n], qtype, ent) + {Nsec3Finding(qtype, ent, ps[n])}
  {
    assert ps[..n + 1] == ps[..n] + [ps[n]];
  }

  method RunNsec3(c: Collector, input: ProofInput, ghost before: set<Finding>)
    requires Holds(input, before, c.candidates, c.warnings, c.compactSeen)
    modifies c
    ensures Holds(input, before + Nsec3Findings(input.nsec3, input.qtype, input.validatedEntNodata),
                  c.candidates, c.warnings, c.compactSeen)
  {
    ghost var fs: set<Finding> := {};
    assert before + fs == before;
    for m := 0 to |input.nsec3|
      invariant Holds(input, before + fs, c.candidates, c.warnings, c.compactSeen)
      invariant fs == Nsec3Findings(input.nsec3[..m], input.qtype, input.validatedEntNodata)
    {
      ghost var f := Nsec3Finding(input.qtype, input.validatedEntNodata, input.nsec3[m]);
      HoldsMore(input, before + fs, c.candidates, c.warnings, c.compactSeen, f);
      Nsec3FindingsStep(input.nsec3, m, input.qtype, input.validatedEntNodata);
      c.ClassifyNsec3(input.qtype, input.validatedEntNodata, input.nsec3[m]);
      assert before + fs + {f} == before + (fs + {f});
      fs := fs + {f};
    }
    assert input.nsec3[..|input.nsec3|] == input.nsec3;
  }

  method Conclude(candidates: seq<Candidate>, warnings: set<Warning>, compact: bool) returns (a: Assessment)
    requires forall x :: x in candidates ==> x.state != Inconclusive
    ensures a == Conclusion((set x | x in candidates), warnings, compact)
  {
    ghost var evidence := set x | x in candidates;
    SeveralStates(evidence);
    var proofs := set x | x in candidates :: x.kind;
    assert proofs == set x | x in evidence :: x.kind;
    var states := set x | x in candidates :: x.state;
    assert states == States(evidence);
    if |states| > 1 {
      return Assessment(Inconclusive, proofs, warnings + {ConflictingValidatedProofs}, false, false, Never, compact);
    }
    if states == {} {
      return Assessment(Inconclusive, proofs, warnings, false, false, Never, compact);
    }
    var state :| state in states;
    assert states == {state};
    AgreedIsFirst(evidence, state);
    forall x | x in candidates ensures x.state == state { assert x.state in states; }
    var cache := MaxCache(candidates, state);
    return Assessment(state, proofs, warnings, state == Exists, state == EmptyNonTerminal, cache, compact);
  }

  method ClassifyDnssecProof(input: ProofInput) returns (a: Assessment)
    ensures a == Assess(input)
  {
    var parsed := ParsePresentationName(input.qname);
    if parsed.InvalidDnsName? {
      return Assessment(Inconclusive, {}, {InvalidQname}, false, false, Never, false);
    }
    var c := new Collector();
    if input.rrsigLabelsEqual {
      c.Warn(RrsigLabelsEqualityIgnored);
    }
    if input.validatedExactPositiveAnswer {
      c.Push(Exists, ValidatedPositiveAnswer, Never);
    }
    if input.validatedEntNodata {
      c.Push(EmptyNonTerminal, EntNodata, Never);
    }
    RunNsec(c, input, parsed.name);
    RunNsec3(c, input, NsecFindings(input.nsec, parsed.name, input.qtype, input.validatedEntNodata));
    EvidenceDecides(input, parsed.name);
    a := Conclude(c.candidates, c.warnings, c.compactSeen);
  }
}
