/**
 The whole assessment in terms of the records alone (src/dnssec_proof.rs): which kinds of proof there are, what they
 say together, what is warned of and what may be cached. Types are named by number here: RRSIG is 46, NSEC 47,
 NSEC3 50 and NXNAME 128.
 */
module DenialVerdict {
  import opened Basics
  import opened Orders
  import opened DnsNames
  import opened DenialProofs
  import opened DenialTheorems

  /** A validated record of the query name itself. */
  predicate NsecAt(p: NsecProof, q: Name) { p.signatureValidated && Parse(p.owner) == Parsed(q) }

  predicate Nsec3At(p: Nsec3Proof) {
    p.signatureValidated && NormalizedHashes(p).Some? && NormalizedHashes(p).value.owner == NormalizedHashes(p).value.qname
  }

  /** The bitmap of a name that is there: conventional, or of unknown synthesis with a type that only owners have. */
  predicate Published(bitmap: set<nat>, synthesis: DenialSynthesis) {
    && 128 !in bitmap
    && (synthesis == Conventional || (synthesis == Unknown && exists t :: t in bitmap && t !in {46, 47, 50, 128}))
  }

  /** There is a proof of this kind. */
  ghost predicate Shows(i: ProofInput, q: Name, kind: ProofKind) {
    match kind
    case ValidatedPositiveAnswer => i.validatedExactPositiveAnswer
    case EntNodata => i.validatedEntNodata
    case NxnameNsec => exists p :: p in i.nsec && NsecAt(p, q) && 128 in p.typeBitmap
    case NxnameNsec3 => exists p :: p in i.nsec3 && Nsec3At(p) && 128 in p.typeBitmap
    case NsecExactOwner => !i.validatedEntNodata && exists p :: p in i.nsec && NsecAt(p, q) && Published(p.typeBitmap, p.synthesis)
    case Nsec3ExactOwner => !i.validatedEntNodata && exists p :: p in i.nsec3 && Nsec3At(p) && Published(p.typeBitmap, p.synthesis)
    case NsecRangeDenial => exists p :: p in i.nsec && NsecRange(p, q)
    case Nsec3RangeDenial => exists p :: p in i.nsec3 && Nsec3Range(p)
  }

  /** What a kind of proof says of the name. */
  function Says(kind: ProofKind): OwnerState {
    match kind
    case ValidatedPositiveAnswer => Exists
    case NsecExactOwner => Exists
    case Nsec3ExactOwner => Exists
    case EntNodata => EmptyNonTerminal
    case NxnameNsec => DoesNotExist
    case NxnameNsec3 => DoesNotExist
    case NsecRangeDenial => DoesNotExist
    case Nsec3RangeDenial => DoesNotExist
  }

  /** A conventional record of the name lacks the type that was asked for. */
  predicate NodataBitmap(bitmap: set<nat>, synthesis: DenialSynthesis, qtype: nat) {
    synthesis == Conventional && 128 !in bitmap && qtype !in bitmap
  }

  ghost predicate ShowsNodata(i: ProofInput, q: Name) {
    && !i.validatedEntNodata
    && ((exists p :: p in i.nsec && NsecAt(p, q) && NodataBitmap(p.typeBitmap, p.synthesis, i.qtype))
        || (exists p :: p in i.nsec3 && Nsec3At(p) && NodataBitmap(p.typeBitmap, p.synthesis, i.qtype)))
  }

  // ----- one record -----

  function OwnerEvidenceOf(bitmap: set<nat>, synthesis: DenialSynthesis, qtype: nat, kind: ProofKind): Candidate {
    Candidate(Exists, kind, if NodataBitmap(bitmap, synthesis, qtype) then ExactName else Never)
  }

  /**
   A record of the name with type 128 denies it, whatever else it says, and offers no caching; without it a published
   bitmap shows the owner, unless the name is known to be empty; a range denies what lies strictly inside; there is no
   other evidence.
   */
  lemma NsecEvidence(q: Name, qtype: nat, ent: bool, p: NsecProof)
    ensures NsecFinding(q, qtype, ent, p).evidence ==
            if NsecAt(p, q) && 128 in p.typeBitmap then Some(Candidate(DoesNotExist, NxnameNsec, Never))
            else if NsecAt(p, q) && Published(p.typeBitmap, p.synthesis) && !ent then
              Some(OwnerEvidenceOf(p.typeBitmap, p.synthesis, qtype, NsecExactOwner))
            else if NsecRange(p, q) then Some(Candidate(DoesNotExist, NsecRangeDenial, Range))
            else None
    ensures !(NsecAt(p, q) && NsecRange(p, q))
  {
    CanonicalTotal();
  }

  lemma Nsec3Evidence(qtype: nat, ent: bool, p: Nsec3Proof)
    ensures Nsec3Finding(qtype, ent, p).evidence ==
            if Nsec3At(p) && 128 in p.typeBitmap then Some(Candidate(DoesNotExist, NxnameNsec3, Never))
            else if Nsec3At(p) && Published(p.typeBitmap, p.synthesis) && !ent then
              Some(OwnerEvidenceOf(p.typeBitmap, p.synthesis, qtype, Nsec3ExactOwner))
            else if Nsec3Range(p) then Some(Candidate(DoesNotExist, Nsec3RangeDenial, Range))
            else None
    ensures !(Nsec3At(p) && Nsec3Range(p))
  {
    BytesTotal();
  }

  // ----- all evidence -----

  ghost predicate Backs(i: ProofInput, q: Name, x: Candidate) {
    && Shows(i, q, x.kind) && x.state == Says(x.kind)
    && (x.cache == Range <==> x.kind in {NsecRangeDenial, Nsec3RangeDenial})
    && (x.cache == ExactName ==> x.state == Exists && ShowsNodata(i, q))
  }

  lemma EvidenceBacks(i: ProofInput, q: Name, x: Candidate)
    requires x in Evidence(i, q)
    ensures Backs(i, q, x)
  {
    EvidenceSource(i, q, x);
    if p :| p in i.nsec && NsecFinding(q, i.qtype, i.validatedEntNodata, p).evidence == Some(x) {
      NsecEvidence(q, i.qtype, i.validatedEntNodata, p);
    } else if p :| p in i.nsec3 && Nsec3Finding(i.qtype, i.validatedEntNodata, p).evidence == Some(x) {
      Nsec3Evidence(i.qtype, i.validatedEntNodata, p);
    }
  }

  lemma FromNsec(i: ProofInput, q: Name, p: NsecProof) returns (x: Candidate)
    requires p in i.nsec && NsecFinding(q, i.qtype, i.validatedEntNodata, p).evidence.Some?
    ensures x in Evidence(i, q) && NsecFinding(q, i.qtype, i.validatedEntNodata, p).evidence == Some(x)
  {
    x := NsecFinding(q, i.qtype, i.validatedEntNodata, p).evidence.value;
    EvidenceSource(i, q, x);
  }

  lemma FromNsec3(i: ProofInput, q: Name, p: Nsec3Proof) returns (x: Candidate)
    requires p in i.nsec3 && Nsec3Finding(i.qtype, i.validatedEntNodata, p).evidence.Some?
    ensures x in Evidence(i, q) && Nsec3Finding(i.qtype, i.validatedEntNodata, p).evidence == Some(x)
  {
    x := Nsec3Finding(i.qtype, i.validatedEntNodata, p).evidence.value;
    EvidenceSource(i, q, x);
  }

  lemma ShownByNsec(i: ProofInput, q: Name, kind: ProofKind) returns (x: Candidate)
    requires kind in {NxnameNsec, NsecExactOwner, NsecRangeDenial} && Shows(i, q, kind)
    ensures x in Evidence(i, q) && x.kind == kind
  {
    var p :| p in i.nsec && (match kind
                             case NxnameNsec => NsecAt(p, q) && 128 in p.typeBitmap
                             case NsecExactOwner => NsecAt(p, q) && Published(p.typeBitmap, p.synthesis)
                             case _ => NsecRange(p, q));
    NsecEvidence(q, i.qtype, i.validatedEntNodata, p);
    x := FromNsec(i, q, p);
  }

  lemma ShownByNsec3(i: ProofInput, q: Name, kind: ProofKind) returns (x: Candidate)
    requires kind in {NxnameNsec3, Nsec3ExactOwner, Nsec3RangeDenial} && Shows(i, q, kind)
    ensures x in Evidence(i, q) && x.kind == kind
  {
    var p :| p in i.nsec3 && (match kind
                              case NxnameNsec3 => Nsec3At(p) && 128 in p.typeBitmap
                              case Nsec3ExactOwner => Nsec3At(p) && Published(p.typeBitmap, p.synthesis)
                              case _ => Nsec3Range(p));
    Nsec3Evidence(i.qtype, i.validatedEntNodata, p);
    x := FromNsec3(i, q, p);
  }

  lemma ShownIsEvidence(i: ProofInput, q: Name, kind: ProofKind) returns (x: Candidate)
    requires Shows(i, q, kind)
    ensures x in Evidence(i, q) && x.kind == kind
  {
    match kind
    case ValidatedPositiveAnswer => x := Candidate(Exists, ValidatedPositiveAnswer, Never);
    case EntNodata => x := Candidate(EmptyNonTerminal, EntNodata, Never);
    case NxnameNsec => x := ShownByNsec(i, q, kind);
    case NsecExactOwner => x := ShownByNsec(i, q, kind);
    case NsecRangeDenial => x := ShownByNsec(i, q, kind);
    case _ => x := ShownByNsec3(i, q, kind);
  }

  lemma NodataIsEvidence(i: ProofInput, q: Name) returns (x: Candidate)
    requires ShowsNodata(i, q)
    ensures x in Evidence(i, q) && x.cache == ExactName
  {
    if p :| p in i.nsec && NsecAt(p, q) && NodataBitmap(p.typeBitmap, p.synthesis, i.qtype) {
      NsecEvidence(q, i.qtype, i.validatedEntNodata, p);
      x := FromNsec(i, q, p);
    } else {
      var p :| p in i.nsec3 && Nsec3At(p) && NodataBitmap(p.typeBitmap, p.synthesis, i.qtype);
      Nsec3Evidence(i.qtype, i.validatedEntNodata, p);
      x := FromNsec3(i, q, p);
    }
  }

  // ----- the verdict -----

  /** Some proof says this of the name. */
  ghost predicate Told(i: ProofInput, q: Name, state: OwnerState) {
    exists kind :: Shows(i, q, kind) && Says(kind) == state
  }

  lemma ToldIsEvidence(i: ProofInput, q: Name, state: OwnerState)
    ensures Told(i, q, state) <==> state in States(Evidence(i, q))
  {
    if Told(i, q, state) {
      var kind :| Shows(i, q, kind) && Says(kind) == state;
      var x := ShownIsEvidence(i, q, kind);
      EvidenceBacks(i, q, x);
    }
    if x :| x in Evidence(i, q) && x.state == state {
      EvidenceBacks(i, q, x);
    }
  }

  lemma AgreedIsTheOnly(c: set<Candidate>, state: OwnerState)
    requires state != Inconclusive && forall x :: x in c ==> x.state != Inconclusive
    ensures AgreedState(c) == state <==> States(c) == {state}
    ensures Conflict(c) <==> exists s, t :: s in States(c) && t in States(c) && s != t
  {
    if s, t :| s in States(c) && t in States(c) && s != t {
      var x :| x in c && x.state == s;
      var y :| y in c && y.state == t;
    }
    if x, y :| x in c && y in c && x.state != y.state {
      assert x.state in States(c) && y.state in States(c);
    }
  }

  /**
   The verdict is what all proofs together say: a name exists, does not exist or is an empty non-terminal iff some proof
   says so and none says anything else; the proofs listed are exactly those there are; and a conflict is reported iff
   two of them say different things.
   */
  lemma VerdictOfRecords(i: ProofInput, q: Name)
    requires Parse(i.qname) == Parsed(q)
    ensures forall state :: state != Inconclusive ==>
              (Assess(i).state == state <==> Told(i, q, state) && forall other :: Told(i, q, other) ==> other == state)
    ensures forall kind :: kind in Assess(i).proofs <==> Shows(i, q, kind)
    ensures ConflictingValidatedProofs in Assess(i).warnings <==> exists s, t :: Told(i, q, s) && Told(i, q, t) && s != t
    ensures Assess(i).liveEligible <==> Assess(i).state == Exists
    ensures Assess(i).traversalHint <==> Assess(i).state == EmptyNonTerminal
  {
    var c := Evidence(i, q);
    forall s ensures Told(i, q, s) <==> s in States(c) { ToldIsEvidence(i, q, s); }
    EvidenceDecides(i, q);
    forall state | state != Inconclusive
      ensures Assess(i).state == state <==> Told(i, q, state) && forall other :: Told(i, q, other) ==> other == state
    {
      AgreedIsTheOnly(c, state);
      assert States(c) == {state} <==> state in States(c) && forall other :: other in States(c) ==> other == state;
    }
    forall kind ensures kind in Assess(i).proofs <==> Shows(i, q, kind) {
      if Shows(i, q, kind) { var x := ShownIsEvidence(i, q, kind); }
      if x :| x in c && x.kind == kind { EvidenceBacks(i, q, x); }
    }
    NoConflictWarning(i, q);
    AgreedIsTheOnly(c, Exists);
  }

  /** So a name is denied iff an NXNAME record of its own or a covering range denies it and nothing speaks for it. */
  lemma DeniedIff(i: ProofInput, q: Name)
    requires Parse(i.qname) == Parsed(q)
    ensures Assess(i).state == DoesNotExist <==>
            && (Shows(i, q, NxnameNsec) || Shows(i, q, NxnameNsec3) || RangeProof(i, q))
            && !OwnerProof(i, q) && !i.validatedEntNodata
  {
    VerdictOfRecords(i, q);
    OwnerIsTold(i, q);
    DenialIsTold(i, q);
    EmptyIsTold(i, q);
    forall other | Told(i, q, other) ensures other in {Exists, DoesNotExist, EmptyNonTerminal} { }
  }

  lemma DenialIsTold(i: ProofInput, q: Name)
    ensures Told(i, q, DoesNotExist) <==> Shows(i, q, NxnameNsec) || Shows(i, q, NxnameNsec3) || RangeProof(i, q)
  {
    if Shows(i, q, NxnameNsec) { assert Says(NxnameNsec) == DoesNotExist; }
    if Shows(i, q, NxnameNsec3) { assert Says(NxnameNsec3) == DoesNotExist; }
    if Shows(i, q, NsecRangeDenial) { assert Says(NsecRangeDenial) == DoesNotExist; }
    if Shows(i, q, Nsec3RangeDenial) { assert Says(Nsec3RangeDenial) == DoesNotExist; }
  }

  lemma EmptyIsTold(i: ProofInput, q: Name)
    ensures Told(i, q, EmptyNonTerminal) <==> i.validatedEntNodata
  {
    if i.validatedEntNodata { assert Shows(i, q, EntNodata) && Says(EntNodata) == EmptyNonTerminal; }
  }

  lemma OwnerIsTold(i: ProofInput, q: Name)
    ensures Told(i, q, Exists) <==> OwnerProof(i, q)
  {
    OwnerEvidence(i, q);
    ToldIsEvidence(i, q, Exists);
  }

  // ----- caching -----

  /** Range synthesis is offered for denials that a range supports, the exact name for an owner without the type asked for. */
  lemma CacheOfRecords(i: ProofInput, q: Name)
    requires Parse(i.qname) == Parsed(q)
    ensures Assess(i).aggressiveCache ==
            if Assess(i).state == DoesNotExist && RangeProof(i, q) then Range
            else if Assess(i).state == Exists && ShowsNodata(i, q) then ExactName
            else Never
  {
    var c := Evidence(i, q);
    RangeCachingNeedsARangeProof(i, q);
    SeveralStates(c);
    if !Conflict(c) {
      if x :| x in c && x.cache == ExactName {
        EvidenceBacks(i, q, x);
        OneState(c, Exists);
      }
      if ShowsNodata(i, q) {
        var x := NodataIsEvidence(i, q);
        EvidenceBacks(i, q, x);
        OneState(c, Exists);
        assert forall y :: y in c ==> y.state == Exists;
        forall y | y in c ensures y.cache != Range { EvidenceBacks(i, q, y); }
      }
    }
  }

  // ----- warnings -----

  ghost predicate Warns(i: ProofInput, q: Name, w: Warning) {
    match w
    case InvalidQname => false
    case RrsigLabelsEqualityIgnored => i.rrsigLabelsEqual
    case UnvalidatedEvidenceIgnored =>
      (exists p :: p in i.nsec && !p.signatureValidated) || (exists p :: p in i.nsec3 && !p.signatureValidated)
    case AmbiguousCompactNodata =>
      && !i.validatedEntNodata
      && ((exists p :: p in i.nsec && NsecAt(p, q) && Ambiguous(p.typeBitmap, p.synthesis))
          || (exists p :: p in i.nsec3 && Nsec3At(p) && Ambiguous(p.typeBitmap, p.synthesis)))
    case InvalidNsecInterval => exists p :: p in i.nsec && BadInterval(p, q)
    case InvalidNsec3Hash => exists p :: p in i.nsec3 && p.signatureValidated && NormalizedHashes(p).None?
    case Nsec3OptOutCoverageIgnored => exists p :: p in i.nsec3 && p.optOut && Nsec3Range(p.(optOut := false))
    case ConflictingValidatedProofs => exists s, t :: Told(i, q, s) && Told(i, q, t) && s != t
  }

  /** Neither a denial nor the bitmap of a name that is there. */
  predicate Ambiguous(bitmap: set<nat>, synthesis: DenialSynthesis) {
    128 !in bitmap && !Published(bitmap, synthesis)
  }

  /** A validated record whose owner cannot be read, or whose end is needed and cannot be read. */
  predicate BadInterval(p: NsecProof, q: Name) {
    && p.signatureValidated
    && (Parse(p.owner).InvalidDnsName?
        || (p.synthesis == Conventional && Parse(p.owner) != Parsed(q) && Parse(p.nextName).InvalidDnsName?))
  }

  lemma NsecWarning(q: Name, qtype: nat, ent: bool, p: NsecProof)
    ensures NsecFinding(q, qtype, ent, p).warning ==
            if !p.signatureValidated then Some(UnvalidatedEvidenceIgnored)
            else if BadInterval(p, q) then Some(InvalidNsecInterval)
            else if NsecAt(p, q) && Ambiguous(p.typeBitmap, p.synthesis) && !ent then Some(AmbiguousCompactNodata)
            else None
    ensures NsecFinding(q, qtype, ent, p).compact <==>
            p.signatureValidated && Parse(p.owner).Parsed? && (128 in p.typeBitmap || p.synthesis == Compact)
  {
    CanonicalTotal();
  }

  lemma Nsec3Warning(qtype: nat, ent: bool, p: Nsec3Proof)
    ensures Nsec3Finding(qtype, ent, p).warning ==
            if !p.signatureValidated then Some(UnvalidatedEvidenceIgnored)
            else if NormalizedHashes(p).None? then Some(InvalidNsec3Hash)
            else if Nsec3At(p) && Ambiguous(p.typeBitmap, p.synthesis) && !ent then Some(AmbiguousCompactNodata)
            else if p.optOut && Nsec3Range(p.(optOut := false)) then Some(Nsec3OptOutCoverageIgnored)
            else None
    ensures Nsec3Finding(qtype, ent, p).compact <==>
            p.signatureValidated && NormalizedHashes(p).Some? && (128 in p.typeBitmap || p.synthesis == Compact)
  {
    BytesTotal();
  }

  /** A warning is raised iff a record calls for it. */
  lemma WarningsOfRecords(i: ProofInput, q: Name, w: Warning)
    requires Parse(i.qname) == Parsed(q)
    ensures w in Assess(i).warnings <==> Warns(i, q, w)
  {
    VerdictOfRecords(i, q);
    if w != ConflictingValidatedProofs {
      WarningSource(i, q, w);
    }
  }

  ghost predicate WarnedBy(i: ProofInput, q: Name, w: Warning) {
    || (exists p :: p in i.nsec && NsecFinding(q, i.qtype, i.validatedEntNodata, p).warning == Some(w))
    || (exists p :: p in i.nsec3 && Nsec3Finding(i.qtype, i.validatedEntNodata, p).warning == Some(w))
  }

  lemma WarningSource(i: ProofInput, q: Name, w: Warning)
    requires w != ConflictingValidatedProofs
    ensures w in FlagWarnings(i) + WarningsOf(Findings(i, q)) <==> Warns(i, q, w)
  {
    if w in WarningsOf(Findings(i, q)) {
      var f :| f in Findings(i, q) && f.warning == Some(w);
      assert WarnedBy(i, q, w);
    }
    if WarnedBy(i, q, w) {
      if p :| p in i.nsec && NsecFinding(q, i.qtype, i.validatedEntNodata, p).warning == Some(w) {
        assert NsecFinding(q, i.qtype, i.validatedEntNodata, p) in Findings(i, q);
      } else {
        var p :| p in i.nsec3 && Nsec3Finding(i.qtype, i.validatedEntNodata, p).warning == Some(w);
        assert Nsec3Finding(i.qtype, i.validatedEntNodata, p) in Findings(i, q);
      }
      assert w in WarningsOf(Findings(i, q));
    }
    WarnedIff(i, q, w);
  }

  lemma WarnedIff(i: ProofInput, q: Name, w: Warning)
    requires w != ConflictingValidatedProofs
    ensures Warns(i, q, w) <==> WarnedBy(i, q, w) || (w == RrsigLabelsEqualityIgnored && i.rrsigLabelsEqual)
  {
    forall p | p in i.nsec { NsecWarning(q, i.qtype, i.validatedEntNodata, p); }
    forall p | p in i.nsec3 { Nsec3Warning(i.qtype, i.validatedEntNodata, p); }
  }

  /** Compact denial is noted iff a readable validated record shows it. */
  lemma CompactSeenIff(i: ProofInput, q: Name)
    requires Parse(i.qname) == Parsed(q)
    ensures Assess(i).compactDenialSeen <==>
            || (exists p :: p in i.nsec && p.signatureValidated && Parse(p.owner).Parsed? && (128 in p.typeBitmap || p.synthesis == Compact))
            || (exists p :: p in i.nsec3 && p.signatureValidated && NormalizedHashes(p).Some? && (128 in p.typeBitmap || p.synthesis == Compact))
  {
    forall p | p in i.nsec { NsecWarning(q, i.qtype, i.validatedEntNodata, p); }
    forall p | p in i.nsec3 { Nsec3Warning(i.qtype, i.validatedEntNodata, p); }
    if p :| p in i.nsec && NsecFinding(q, i.qtype, i.validatedEntNodata, p).compact {
      assert NsecFinding(q, i.qtype, i.validatedEntNodata, p) in Findings(i, q);
    } else if p :| p in i.nsec3 && Nsec3Finding(i.qtype, i.validatedEntNodata, p).compact {
      assert Nsec3Finding(i.qtype, i.validatedEntNodata, p) in Findings(i, q);
    }
    if f :| f in Findings(i, q) && f.compact {
      if p :| p in i.nsec && f == NsecFinding(q, i.qtype, i.validatedEntNodata, p) {
      } else {
        var p :| p in i.nsec3 && f == Nsec3Finding(i.qtype, i.validatedEntNodata, p);
      }
    }
  }
}
