/** How often and when last each key was seen (src/intelligence.rs), and listings of keys in order. */
module Tallies {
  import opened Basics
  import opened Ranking

  const USIZE_MAX: nat := 0xffff_ffff_ffff_ffff

  datatype Stats = Stats(observations: nat, latest: Option<int>)

  datatype Sighting<K> = Sighting(key: K, at: Option<int>)

  /** The later of two optional times; a time is later than none. */
  function Later(a: Option<int>, b: Option<int>): Option<int> {
    if a.None? then b else if b.None? || a.value >= b.value then a else b
  }

  function Observed(s: Stats, at: Option<int>): Stats {
    Stats(if s.observations == USIZE_MAX then USIZE_MAX else s.observations + 1, Later(s.latest, at))
  }

  function See<K>(tally: map<K, Stats>, key: K, at: Option<int>): map<K, Stats> {
    tally[key := Observed(if key in tally then tally[key] else Stats(0, None), at)]
  }

  function Tally<K>(sightings: seq<Sighting<K>>): map<K, Stats> {
    if sightings == [] then map[]
    else
      var last := sightings[|sightings| - 1];
      See(Tally(sightings[..|sightings| - 1]), last.key, last.at)
  }

  lemma TallySnoc<K>(sightings: seq<Sighting<K>>, key: K, at: Option<int>)
    ensures Tally(sightings + [Sighting(key, at)]) == See(Tally(sightings), key, at)
  {
    assert (sightings + [Sighting(key, at)])[..|sightings|] == sightings;
  }

  // ----- what a tally says -----

  function Times<K(==)>(sightings: seq<Sighting<K>>, key: K): nat {
    if sightings == [] then 0
    else Times(sightings[..|sightings| - 1], key) + if sightings[|sightings| - 1].key == key then 1 else 0
  }

  /** latest is the greatest time at which the key was seen, if it was seen at a known time at all. */
  ghost predicate IsLatest<K>(sightings: seq<Sighting<K>>, key: K, latest: Option<int>) {
    && (forall i :: 0 <= i < |sightings| && sightings[i].key == key && sightings[i].at.Some? ==>
          latest.Some? && sightings[i].at.value <= latest.value)
    && (latest.Some? ==> Sighting(key, latest) in sightings)
  }

  lemma {:induction false} NeverSeen<K>(sightings: seq<Sighting<K>>, key: K)
    ensures Times(sightings, key) == 0 <==> forall i :: 0 <= i < |sightings| ==> sightings[i].key != key
  {
    if sightings != [] {
      NeverSeen(sightings[..|sightings| - 1], key);
    }
  }

  lemma LatestMore<K>(sightings: seq<Sighting<K>>, key: K, latest: Option<int>, last: Sighting<K>)
    requires IsLatest(sightings, key, latest)
    ensures IsLatest(sightings + [last], key, if last.key == key then Later(latest, last.at) else latest)
  {
    assert forall x :: x in sightings + [last] <==> x in sightings || x == last;
  }

  /** A key is in the tally iff it was seen; its count is the number of sightings, up to the machine's limit, its time the latest. */
  lemma {:induction false} TallyMeans<K>(sightings: seq<Sighting<K>>, key: K)
    ensures key in Tally(sightings) <==> exists i :: 0 <= i < |sightings| && sightings[i].key == key
    ensures key in Tally(sightings) ==>
              && Tally(sightings)[key].observations == Min(Times(sightings, key), USIZE_MAX)
              && IsLatest(sightings, key, Tally(sightings)[key].latest)
  {
    NeverSeen(sightings, key);
    if sightings != [] {
      var front, last := sightings[..|sightings| - 1], sightings[|sightings| - 1];
      TallyMeans(front, key);
      NeverSeen(front, key);
      assert sightings == front + [last];
      var before := if key in Tally(front) then Tally(front)[key].latest else None;
      LatestMore(front, key, before, last);
    }
  }

  // ----- keys in order -----

  method Listing<K(!new,==)>(before: (K, K) -> bool, keys: set<K>) returns (listed: seq<K>)
    requires StrictOrder(before)
    ensures Ascending(before, listed) && Elements(listed) == keys
  {
    listed := [];
    var rest := keys;
    while rest != {}
      invariant Ascending(before, listed) && Precede(before, listed, rest) && Elements(listed) + rest == keys
      decreases |rest|
    {
      ghost var first := FirstExists(before, rest);
      var m :| m in rest && forall y :: y in rest && y != m ==> before(m, y);
      ExtendListing(before, listed, rest, m);
      listed, rest := listed + [m], rest - {m};
    }
  }

  lemma AscendingIsDistinct<K(!new)>(before: (K, K) -> bool, listed: seq<K>)
    requires StrictOrder(before) && Ascending(before, listed)
    ensures forall i, j :: 0 <= i < j < |listed| ==> listed[i] != listed[j]
  {
  }
}
