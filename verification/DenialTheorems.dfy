/** What the classifier's verdict means: agreement with genuine chains, insensitivity, monotonicity, caching. */
module DenialTheorems {
  import opened Basics
  import opened Orders
  import opened DnsNames
  import opened DenialProofs

  lemma OneState(c: set<Candidate>, state: OwnerState)
    requires forall x :: x in c ==> x.state == state
    requires state != Inconclusive
    ensures AgreedState(c) == if c == {} then Inconclusive else state
    ensures !Conflict(c)
  {
    if c != {} {
      var x :| x in c;
      assert States(c) == {state} by { assert x.state in States(c); }
    } else {
      assert States(c) == {};
    }
  }

  // ----- agreement with a genuine chain -----

  /** p is record i of the chain, validated, conventional and without the NXNAME bit. */
  ghost predicate NsecRecord(p: NsecProof, owners: seq<Name>, i: nat) {
    && i < |owners|
    && p.signatureValidated && p.synthesis == Conventional && TYPE_NXNAME !in p.typeBitmap
    && Parse(p.owner) == Parsed(owners[i])
    && Parse(p.nextName) == Parsed(Successor(owners, i))
  }

  lemma NsecRecordFinding(p: NsecProof, owners: seq<Name>, i: nat, q: Name, qtype: nat)
    requires NsecRecord(p, owners, i)
    ensures var f := NsecFinding(q, qtype, false, p);
            if owners[i] == q then f.evidence.Some? && f.evidence.value.state == Exists
            else if Decides(CanonicalCompare, owners, i, q) then f.evidence == Some(Candidate(DoesNotExist, NsecRangeDenial, Range))
            else f.evidence == None
  {
    CanonicalTotal();
  }

  /**
   Any subset of a genuine chain, in any order: the record that decides q settles the verdict, without it the
   verdict is Inconclusive, and the records never conflict.
   */
  lemma NsecChainVerdict(input: ProofInput, owners: seq<Name>, q: Name) returns (home: nat)
    requires Parse(input.qname) == Parsed(q)
    requires !input.validatedExactPositiveAnswer && !input.validatedEntNodata && input.nsec3 == []
    requires Chain(CanonicalCompare, owners)
    requires forall p :: p in input.nsec ==> exists i :: NsecRecord(p, owners, i)
    ensures home < |owners| && forall i :: 0 <= i < |owners| ==> (Decides(CanonicalCompare, owners, i, q) <==> i == home)
    ensures Assess(input).state ==
            if !(exists p :: p in input.nsec && NsecRecord(p, owners, home)) then Inconclusive
            else if q in owners then Exists else DoesNotExist
    ensures ConflictingValidatedProofs !in Assess(input).warnings
  {
    CanonicalTotal();
    home := RingPartition(CanonicalCompare, owners, q);
    var state := if q in owners then Exists else DoesNotExist;
    forall p | p in input.nsec
      ensures var f := NsecFinding(q, input.qtype, false, p);
              && (f.evidence.Some? ==> f.evidence.value.state == state)
              && (f.evidence.Some? <==> NsecRecord(p, owners, home))
    {
      var i :| NsecRecord(p, owners, i);
      NsecRecordFinding(p, owners, i, q, input.qtype);
      if NsecRecord(p, owners, home) {
        NsecRecordFinding(p, owners, home, q, input.qtype);
      }
    }
    var c := Evidence(input, q);
    forall x | x in c ensures x.state == state && exists p :: p in input.nsec && NsecRecord(p, owners, home) {
      var f :| f in Findings(input, q) && f.evidence == Some(x);
      var p :| p in input.nsec && f == NsecFinding(q, input.qtype, false, p);
    }
    if p :| p in input.nsec && NsecRecord(p, owners, home) {
      var f := NsecFinding(q, input.qtype, false, p);
      assert f in Findings(input, q);
      assert f.evidence.value in c;
    }
    OneState(c, state);
    NoConflictWarning(input, q);
  }

  lemma NsecFindingWarning(q: Name, qtype: nat, ent: bool, p: NsecProof)
    ensures NsecFinding(q, qtype, ent, p).warning != Some(ConflictingValidatedProofs)
  {
  }

  lemma Nsec3FindingWarning(qtype: nat, ent: bool, p: Nsec3Proof)
    ensures Nsec3Finding(qtype, ent, p).warning != Some(ConflictingValidatedProofs)
  {
  }

  /** The conflict warning is raised exactly when validated evidence disagrees. */
  lemma NoConflictWarning(i: ProofInput, q: Name)
    requires Parse(i.qname) == Parsed(q)
    ensures ConflictingValidatedProofs in Assess(i).warnings <==> Conflict(Evidence(i, q))
  {
    forall f | f in Findings(i, q) ensures f.warning != Some(ConflictingValidatedProofs) {
      if p :| p in i.nsec && f == NsecFinding(q, i.qtype, i.validatedEntNodata, p) {
        NsecFindingWarning(q, i.qtype, i.validatedEntNodata, p);
      } else {
        var p :| p in i.nsec3 && f == Nsec3Finding(i.qtype, i.validatedEntNodata, p);
        Nsec3FindingWarning(i.qtype, i.validatedEntNodata, p);
      }
    }
  }

  /** p is record i of the hash chain, validated, conventional, not Opt-Out and without the NXNAME bit. */
  ghost predicate Nsec3Record(p: Nsec3Proof, owners: seq<Octets>, i: nat, h: Octets) {
    && i < |owners|
    && p.signatureValidated && p.synthesis == Conventional && !p.optOut && TYPE_NXNAME !in p.typeBitmap
    && NormalizedHashes(p) == Some(Hashes(owners[i], Successor(owners, i), h))
  }

  /** The same for hashes: h is the hash of the query name under the chain's parameters. */
  lemma Nsec3ChainVerdict(input: ProofInput, owners: seq<Octets>, q: Name, h: Octets) returns (home: nat)
    requires Parse(input.qname) == Parsed(q)
    requires !input.validatedExactPositiveAnswer && !input.validatedEntNodata && input.nsec == []
    requires Chain(CompareBytes, owners)
    requires forall p :: p in input.nsec3 ==> exists i :: Nsec3Record(p, owners, i, h)
    ensures home < |owners| && forall i :: 0 <= i < |owners| ==> (Decides(CompareBytes, owners, i, h) <==> i == home)
    ensures Assess(input).state ==
            if !(exists p :: p in input.nsec3 && Nsec3Record(p, owners, home, h)) then Inconclusive
            else if h in owners then Exists else DoesNotExist
    ensures ConflictingValidatedProofs !in Assess(input).warnings
  {
    BytesTotal();
    home := RingPartition(CompareBytes, owners, h);
    var state := if h in owners then Exists else DoesNotExist;
    forall p | p in input.nsec3
      ensures var f := Nsec3Finding(input.qtype, false, p);
              && (f.evidence.Some? ==> f.evidence.value.state == state)
              && (f.evidence.Some? <==> Nsec3Record(p, owners, home, h))
    {
      var i :| Nsec3Record(p, owners, i, h);
      assert Decides(CompareBytes, owners, i, h) <==> i == home;
    }
    var c := Evidence(input, q);
    forall x | x in c ensures x.state == state && exists p :: p in input.nsec3 && Nsec3Record(p, owners, home, h) {
      var f :| f in Findings(input, q) && f.evidence == Some(x);
      var p :| p in input.nsec3 && f == Nsec3Finding(input.qtype, false, p);
    }
    if p :| p in input.nsec3 && Nsec3Record(p, owners, home, h) {
      var f := Nsec3Finding(input.qtype, false, p);
      assert f in Findings(input, q);
      assert f.evidence.value in c;
    }
    OneState(c, state);
    NoConflictWarning(input, q);
  }

  // ----- what the verdict does not depend on -----

  predicate SameQuestion(i: ProofInput, j: ProofInput) {
    && i.qname == j.qname && i.qtype == j.qtype
    && i.validatedExactPositiveAnswer == j.validatedExactPositiveAnswer
    && i.validatedEntNodata == j.validatedEntNodata
  }

  ghost predicate SameProofs(i: ProofInput, j: ProofInput) {
    && (forall p :: p in i.nsec <==> p in j.nsec)
    && (forall p :: p in i.nsec3 <==> p in j.nsec3)
  }

  /** Reordering or repeating proofs changes nothing. */
  lemma OrderAndRepetitionDoNotMatter(i: ProofInput, j: ProofInput)
    requires SameQuestion(i, j) && SameProofs(i, j) && i.rrsigLabelsEqual == j.rrsigLabelsEqual
    ensures Assess(i) == Assess(j)
  {
    if Parse(i.qname).Parsed? {
      var q := Parse(i.qname).name;
      assert Findings(i, q) == Findings(j, q);
    }
  }

  ghost predicate SameValidatedProofs(i: ProofInput, j: ProofInput) {
    && (forall p: NsecProof :: p.signatureValidated ==> (p in i.nsec <==> p in j.nsec))
    && (forall p: Nsec3Proof :: p.signatureValidated ==> (p in i.nsec3 <==> p in j.nsec3))
  }

  function IgnoredFinding(): Finding { Finding(None, Some(UnvalidatedEvidenceIgnored), false) }

  /** Proofs that were not validated, and the RRSIG Labels diagnostic, can only change these two warnings. */
  lemma UnvalidatedEvidenceOnlyWarns(i: ProofInput, j: ProofInput)
    requires SameQuestion(i, j) && SameValidatedProofs(i, j)
    ensures Assess(i).(warnings := {}) == Assess(j).(warnings := {})
    ensures Assess(i).warnings - {UnvalidatedEvidenceIgnored, RrsigLabelsEqualityIgnored}
         == Assess(j).warnings - {UnvalidatedEvidenceIgnored, RrsigLabelsEqualityIgnored}
  {
    if Parse(i.qname).Parsed? {
      var q := Parse(i.qname).name;
      SameButIgnored(i, j, q, Findings(i, q), Findings(j, q));
    }
  }

  lemma SameButIgnored(i: ProofInput, j: ProofInput, q: Name, fi: set<Finding>, fj: set<Finding>)
    requires SameQuestion(i, j)
    requires fi - {IgnoredFinding()} <= fj && fj - {IgnoredFinding()} <= fi
    ensures FlagEvidence(i) + EvidenceOf(fi) == FlagEvidence(j) + EvidenceOf(fj)
    ensures AnyCompact(fi) == AnyCompact(fj)
    ensures FlagWarnings(i) + WarningsOf(fi) - {UnvalidatedEvidenceIgnored, RrsigLabelsEqualityIgnored}
         == FlagWarnings(j) + WarningsOf(fj) - {UnvalidatedEvidenceIgnored, RrsigLabelsEqualityIgnored}
  {
    assert fi - {IgnoredFinding()} == fj - {IgnoredFinding()};
  }

  // ----- more evidence -----

  /** More proofs keep a decided verdict or make it an open conflict; they never flip it. */
  lemma MoreProofsNeverFlip(i: ProofInput, j: ProofInput)
    requires SameQuestion(i, j)
    requires (forall p :: p in i.nsec ==> p in j.nsec) && (forall p :: p in i.nsec3 ==> p in j.nsec3)
    requires Assess(i).state != Inconclusive
    ensures Assess(j).state == Assess(i).state ||
            (Assess(j).state == Inconclusive && ConflictingValidatedProofs in Assess(j).warnings)
  {
    var q := Parse(i.qname).name;
    var ci, cj := Evidence(i, q), Evidence(j, q);
    assert Findings(i, q) <= Findings(j, q);
    assert ci <= cj;
    var s := Assess(i).state;
    assert States(ci) == {s};
    assert exists x :: x in ci && x.state == s by { assert s in States(ci); }
    SeveralStates(cj);
    if !Conflict(cj) {
      forall x | x in cj ensures x.state == s { }
      OneState(cj, s);
    }
  }

  // ----- what each kind of evidence needs -----

  /** A validated, conventional record whose interval strictly covers q. */
  predicate NsecRange(p: NsecProof, q: Name) {
    && p.signatureValidated && p.synthesis == Conventional
    && Parse(p.owner).Parsed? && Parse(p.nextName).Parsed?
    && Covers(CanonicalCompare, Parse(p.owner).name, Parse(p.nextName).name, q)
  }

  /** The same for hashes, and not Opt-Out. */
  predicate Nsec3Range(p: Nsec3Proof) {
    && p.signatureValidated && p.synthesis == Conventional && !p.optOut && NormalizedHashes(p).Some?
    && var h := NormalizedHashes(p).value; Covers(CompareBytes, h.owner, h.next, h.qname)
  }

  /** A bitmap that tells a terminal owner from an ambiguous compact answer. */
  predicate TerminalBitmap(bitmap: set<nat>, synthesis: DenialSynthesis) {
    && TYPE_NXNAME !in bitmap
    && (synthesis == Conventional || (synthesis == Unknown && BitmapHasOwnerData(bitmap)))
  }

  predicate NsecOwns(p: NsecProof, q: Name) {
    p.signatureValidated && Parse(p.owner) == Parsed(q) && TerminalBitmap(p.typeBitmap, p.synthesis)
  }

  predicate Nsec3Owns(p: Nsec3Proof) {
    && p.signatureValidated && NormalizedHashes(p).Some?
    && NormalizedHashes(p).value.owner == NormalizedHashes(p).value.qname
    && TerminalBitmap(p.typeBitmap, p.synthesis)
  }

  /** One NSEC proof denies a range exactly when it is a range proof, and owns exactly when it is an owner proof. */
  lemma NsecFindingMeaning(q: Name, qtype: nat, ent: bool, p: NsecProof)
    ensures var e := NsecFinding(q, qtype, ent, p).evidence;
            && ((e.Some? && e.value.cache == Range) <==> NsecRange(p, q))
            && ((e.Some? && e.value.state == Exists) <==> (NsecOwns(p, q) && !ent))
            && (NsecRange(p, q) ==> e.value.state == DoesNotExist)
  {
    CanonicalTotal();
  }

  lemma Nsec3FindingMeaning(qtype: nat, ent: bool, p: Nsec3Proof)
    ensures var e := Nsec3Finding(qtype, ent, p).evidence;
            && ((e.Some? && e.value.cache == Range) <==> Nsec3Range(p))
            && ((e.Some? && e.value.state == Exists) <==> (Nsec3Owns(p) && !ent))
            && (Nsec3Range(p) ==> e.value.state == DoesNotExist)
  {
    BytesTotal();
  }

  ghost predicate FromProof(i: ProofInput, q: Name, x: Candidate) {
    || (exists p :: p in i.nsec && NsecFinding(q, i.qtype, i.validatedEntNodata, p).evidence == Some(x))
    || (exists p :: p in i.nsec3 && Nsec3Finding(i.qtype, i.validatedEntNodata, p).evidence == Some(x))
  }

  lemma EvidenceSource(i: ProofInput, q: Name, x: Candidate)
    ensures x in Evidence(i, q) <==> x in FlagEvidence(i) || FromProof(i, q, x)
  {
    if x in EvidenceOf(Findings(i, q)) {
      var f :| f in Findings(i, q) && f.evidence == Some(x);
    }
    if p :| p in i.nsec && NsecFinding(q, i.qtype, i.validatedEntNodata, p).evidence == Some(x) {
      assert NsecFinding(q, i.qtype, i.validatedEntNodata, p) in Findings(i, q);
    } else if p :| p in i.nsec3 && Nsec3Finding(i.qtype, i.validatedEntNodata, p).evidence == Some(x) {
      assert Nsec3Finding(i.qtype, i.validatedEntNodata, p) in Findings(i, q);
    }
  }

  // ----- aggressive caching -----

  ghost predicate RangeProof(i: ProofInput, q: Name) {
    (exists p :: p in i.nsec && NsecRange(p, q)) || (exists p :: p in i.nsec3 && Nsec3Range(p))
  }

  lemma RangeEvidence(i: ProofInput, q: Name)
    ensures (exists x :: x in Evidence(i, q) && x.cache == Range) <==> RangeProof(i, q)
    ensures forall x :: x in Evidence(i, q) && x.cache == Range ==> x.state == DoesNotExist
  {
    forall x | x in Evidence(i, q) && x.cache == Range ensures x.state == DoesNotExist && RangeProof(i, q) {
      EvidenceSource(i, q, x);
      if p :| p in i.nsec && NsecFinding(q, i.qtype, i.validatedEntNodata, p).evidence == Some(x) {
        NsecFindingMeaning(q, i.qtype, i.validatedEntNodata, p);
      } else {
        var p :| p in i.nsec3 && Nsec3Finding(i.qtype, i.validatedEntNodata, p).evidence == Some(x);
        Nsec3FindingMeaning(i.qtype, i.validatedEntNodata, p);
      }
    }
    if p :| p in i.nsec && NsecRange(p, q) {
      NsecFindingMeaning(q, i.qtype, i.validatedEntNodata, p);
      EvidenceSource(i, q, NsecFinding(q, i.qtype, i.validatedEntNodata, p).evidence.value);
    } else if p :| p in i.nsec3 && Nsec3Range(p) {
      Nsec3FindingMeaning(i.qtype, i.validatedEntNodata, p);
      EvidenceSource(i, q, Nsec3Finding(i.qtype, i.validatedEntNodata, p).evidence.value);
    }
  }

  /** Range synthesis is offered exactly for an undisputed denial that a range proof supports. */
  lemma RangeCachingNeedsARangeProof(i: ProofInput, q: Name)
    requires Parse(i.qname) == Parsed(q)
    ensures Assess(i).aggressiveCache == Range <==> Assess(i).state == DoesNotExist && RangeProof(i, q)
  {
    var c := Evidence(i, q);
    RangeEvidence(i, q);
    SeveralStates(c);
    if !Conflict(c) {
      if x :| x in c && x.cache == Range {
        OneState(c, DoesNotExist);
      }
    }
  }

  // ----- live names -----

  ghost predicate OwnerProof(i: ProofInput, q: Name) {
    || i.validatedExactPositiveAnswer
    || (!i.validatedEntNodata
        && ((exists p :: p in i.nsec && NsecOwns(p, q)) || (exists p :: p in i.nsec3 && Nsec3Owns(p))))
  }

  lemma OwnerEvidence(i: ProofInput, q: Name)
    ensures (exists x :: x in Evidence(i, q) && x.state == Exists) <==> OwnerProof(i, q)
  {
    forall x | x in Evidence(i, q) && x.state == Exists ensures OwnerProof(i, q) {
      EvidenceSource(i, q, x);
      if p :| p in i.nsec && NsecFinding(q, i.qtype, i.validatedEntNodata, p).evidence == Some(x) {
        NsecFindingMeaning(q, i.qtype, i.validatedEntNodata, p);
      } else if p :| p in i.nsec3 && Nsec3Finding(i.qtype, i.validatedEntNodata, p).evidence == Some(x) {
        Nsec3FindingMeaning(i.qtype, i.validatedEntNodata, p);
      }
    }
    if i.validatedExactPositiveAnswer {
      EvidenceSource(i, q, Candidate(Exists, ValidatedPositiveAnswer, Never));
    } else if p :| !i.validatedEntNodata && p in i.nsec && NsecOwns(p, q) {
      NsecFindingMeaning(q, i.qtype, i.validatedEntNodata, p);
      EvidenceSource(i, q, NsecFinding(q, i.qtype, i.validatedEntNodata, p).evidence.value);
    } else if p :| !i.validatedEntNodata && p in i.nsec3 && Nsec3Owns(p) {
      Nsec3FindingMeaning(i.qtype, i.validatedEntNodata, p);
      EvidenceSource(i, q, Nsec3Finding(i.qtype, i.validatedEntNodata, p).evidence.value);
    }
  }

  /** A name is offered as live exactly when validated evidence of its owner is undisputed. */
  lemma LiveNeedsAnOwnerProof(i: ProofInput, q: Name)
    requires Parse(i.qname) == Parsed(q)
    ensures Assess(i).liveEligible <==> OwnerProof(i, q) && !Conflict(Evidence(i, q))
  {
    var c := Evidence(i, q);
    OwnerEvidence(i, q);
    SeveralStates(c);
    if x :| x in c && x.state == Exists {
      if !Conflict(c) {
        OneState(c, Exists);
      }
    } else {
      assert Exists !in States(c);
    }
  }
}
