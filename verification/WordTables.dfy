/**
 The word tables of the token classifier (src/intelligence.rs) and the binary search that reads them. The search is
 that of Rust's standard library in the declared version (Cargo.toml): it halves the range without an early exit and
 compares once more at the end. One of the tables is not sorted.
 */
module WordTables {
  import opened Orders

  function EnvironmentWords(): seq<string> { EarlyEnvironments() + LateEnvironments() }

  function EarlyEnvironments(): seq<string> {
    [
      "beta", "dev", "development", "int", "integration", "lab", "preprod", "prod"
    ]
  }

  function LateEnvironments(): seq<string> {
    [
      "production", "qa", "sandbox", "stage", "staging", "test", "testing", "uat"
    ]
  }

  function RegionWords(): seq<string> { EarlyRegions() + LateRegions() }

  function EarlyRegions(): seq<string> {
    [
      "af", "ap", "asia", "au", "ca", "central", "east", "emea"
    ]
  }

  function LateRegions(): seq<string> {
    [
      "eu", "europe", "global", "north", "sa", "south", "us", "west"
    ]
  }

  function CloudWords(): seq<string> { EarlyClouds() + LateClouds() }

  function EarlyClouds(): seq<string> {
    [
      "akamai", "aws", "azure", "cf", "cloud", "cloudflare"
    ]
  }

  function LateClouds(): seq<string> {
    [
      "cloudfront", "do", "gcp", "linode", "oci", "ovh"
    ]
  }

  /** The service words, in the program's own order: "img" stands before "imap". */
  function ServiceWords(): seq<string> { EarlyServices() + ["img", "imap"] + LateServices() }

  function EarlyServices(): seq<string> { EarliestServices() + MiddleServices() }

  function LateServices(): seq<string> { LaterServices() + LastServices() }

  function EarliestServices(): seq<string> {
    [
      "admin", "api", "app", "assets", "auth", "backend", "billing", "cache", "cdn", "checkout", "console",
      "dashboard"
    ]
  }

  function MiddleServices(): seq<string> {
    [
      "database", "db", "devops", "docs", "edge", "ftp", "gateway", "git", "gitlab", "graphql", "images"
    ]
  }

  function LaterServices(): seq<string> {
    [
      "jenkins", "m", "mail", "media", "mobile", "monitor", "origin", "payments", "pop", "pop3", "portal"
    ]
  }

  function LastServices(): seq<string> {
    [
      "proxy", "redis", "remote", "search", "smtp", "sql", "static", "status", "vpn", "web", "www"
    ]
  }

  // ----- the search -----

  /** Where the search ends, within size entries from base. */
  function Narrow(table: seq<string>, value: string, base: nat, size: nat): (r: nat)
    requires 0 < size && base + size <= |table|
    ensures base <= r < base + size
    decreases size
  {
    if size == 1 then base
    else Narrow(table, value, if CompareStrings(table[base + size / 2], value) == Greater then base else base + size / 2, size - size / 2)
  }

  predicate Found(table: seq<string>, value: string) {
    table != [] && table[Narrow(table, value, 0, |table|)] == value
  }

  method BinarySearch(table: seq<string>, value: string) returns (found: bool)
    ensures found == Found(table, value)
  {
    var base: nat, size: nat := 0, |table|;
    if size == 0 {
      return false;
    }
    while size > 1
      invariant 0 < size && base + size <= |table|
      invariant Narrow(table, value, 0, |table|) == Narrow(table, value, base, size)
    {
      var half := size / 2;
      if CompareStrings(table[base + half], value) != Greater {
        base := base + half;
      }
      size := size - half;
    }
    return table[base] == value;
  }

  // ----- what it finds -----

  /** Within lo..hi exactly the entries behind k are greater than the value. */
  ghost predicate Splits(table: seq<string>, value: string, lo: nat, hi: nat, k: nat) {
    && lo <= k < hi <= |table|
    && forall i :: lo <= i < hi ==> (CompareStrings(table[i], value) == Greater <==> k < i)
  }

  lemma {:induction false} NarrowEndsAt(table: seq<string>, value: string, base: nat, size: nat, k: nat)
    requires Splits(table, value, base, base + size, k)
    ensures Narrow(table, value, base, size) == k
    decreases size
  {
    if size > 1 {
      var mid := base + size / 2;
      NarrowEndsAt(table, value, if CompareStrings(table[mid], value) == Greater then base else mid, size - size / 2, k);
    }
  }

  ghost predicate Ascending(table: seq<string>) {
    forall i, j :: 0 <= i < j < |table| ==> CompareStrings(table[i], table[j]) == Less
  }

  lemma Compared(a: string, b: string)
    ensures CompareStrings(a, b) == Equal <==> a == b
    ensures CompareStrings(a, b) == CompareStrings(b, a).Reverse()
  {
    StringsTotal();
  }

  lemma AscendingSplits(table: seq<string>, k: nat)
    requires Ascending(table) && k < |table|
    ensures Splits(table, table[k], 0, |table|, k)
  {
    forall i | 0 <= i < |table| ensures CompareStrings(table[i], table[k]) == Greater <==> k < i {
      Compared(table[i], table[k]);
    }
  }

  /** In an ascending table the search finds exactly the members. */
  lemma AscendingFinds(table: seq<string>, value: string)
    requires Ascending(table)
    ensures Found(table, value) <==> value in table
  {
    if value in table {
      var k :| 0 <= k < |table| && table[k] == value;
      AscendingSplits(table, k);
      NarrowEndsAt(table, value, 0, |table|, k);
    }
  }

  // ----- two neighbours in the wrong order -----

  function Swapped(table: seq<string>, j: nat): seq<string>
    requires j + 1 < |table|
  {
    table[j := table[j + 1]][j + 1 := table[j]]
  }

  /** Exchanging entries j and j + 1 would sort the table. */
  ghost predicate OneSwapFromAscending(table: seq<string>, j: nat) {
    j + 1 < |table| && Ascending(Swapped(table, j))
  }

  /** Where entry i stands in the sorted table. */
  function Place(j: nat, i: nat): nat { if i == j then j + 1 else if i == j + 1 then j else i }

  lemma ComparedByPlace(table: seq<string>, j: nat, i: nat, k: nat)
    requires OneSwapFromAscending(table, j) && i < |table| && k < |table|
    ensures CompareStrings(table[i], table[k]) == Greater <==> Place(j, k) < Place(j, i)
    ensures table[i] == table[k] ==> i == k
  {
    var sorted := Swapped(table, j);
    AscendingSplits(sorted, Place(j, k));
    assert table[i] == sorted[Place(j, i)] && table[k] == sorted[Place(j, k)];
    Compared(table[i], table[k]);
    if i != k {
      assert Place(j, i) < Place(j, k) ==> CompareStrings(sorted[Place(j, i)], sorted[Place(j, k)]) == Less;
    }
  }

  /** Every member but the two is found all the same. */
  lemma OthersAreFound(table: seq<string>, j: nat, k: nat)
    requires OneSwapFromAscending(table, j) && k < |table| && k != j && k != j + 1
    ensures Found(table, table[k])
  {
    forall i | 0 <= i < |table| ensures CompareStrings(table[i], table[k]) == Greater <==> k < i {
      ComparedByPlace(table, j, i, k);
    }
    NarrowEndsAt(table, table[k], 0, |table|, k);
  }

  /** The first of the two is always missed: the search ends at the second. */
  lemma FirstIsMissed(table: seq<string>, j: nat)
    requires OneSwapFromAscending(table, j)
    ensures !Found(table, table[j])
  {
    forall i | 0 <= i < |table| ensures CompareStrings(table[i], table[j]) == Greater <==> j + 1 < i {
      ComparedByPlace(table, j, i, j);
    }
    NarrowEndsAt(table, table[j], 0, |table|, j + 1);
    ComparedByPlace(table, j, j, j + 1);
  }

  /** The second is missed when the first stands in the middle of the table, where the search begins. */
  lemma SecondIsMissed(table: seq<string>, j: nat)
    requires OneSwapFromAscending(table, j) && j == |table| / 2 && |table| % 2 == 1 && j > 0
    ensures !Found(table, table[j + 1])
  {
    forall i | 0 <= i < j + 1 ensures CompareStrings(table[i], table[j + 1]) == Greater <==> j - 1 < i {
      ComparedByPlace(table, j, i, j + 1);
    }
    NarrowEndsAt(table, table[j + 1], 0, j + 1, j - 1);
    assert Narrow(table, table[j + 1], 0, |table|) == Narrow(table, table[j + 1], 0, j + 1);
    ComparedByPlace(table, j, j - 1, j + 1);
  }

  // ----- the program's tables -----

  /** From k on, a is less than b. */
  predicate LessFrom(a: string, b: string, k: nat)
    requires k <= |a| && k <= |b|
    decreases |a| - k
  {
    k < |b| && (k == |a| || a[k] < b[k] || (a[k] == b[k] && LessFrom(a, b, k + 1)))
  }

  lemma {:induction false} LessFromIsLess(a: string, b: string, k: nat)
    requires k <= |a| && k <= |b| && LessFrom(a, b, k)
    ensures CompareStrings(a[k..], b[k..]) == Less
    decreases |a| - k
  {
    if k < |a| && a[k] == b[k] {
      LessFromIsLess(a, b, k + 1);
      assert a[k..][1..] == a[k + 1..] && b[k..][1..] == b[k + 1..];
    }
  }

  /** From entry i on, every entry is less than the next. */
  predicate AscendsFrom(table: seq<string>, i: nat)
    decreases |table| - i
  {
    i + 1 >= |table| || (LessFrom(table[i], table[i + 1], 0) && AscendsFrom(table, i + 1))
  }

  lemma {:induction false} NeighboursAscend(table: seq<string>, i: nat, k: nat)
    requires AscendsFrom(table, i) && i <= k < |table| - 1
    ensures CompareStrings(table[k], table[k + 1]) == Less
    decreases |table| - i
  {
    if i == k {
      LessFromIsLess(table[k], table[k + 1], 0);
      assert table[k][0..] == table[k] && table[k + 1][0..] == table[k + 1];
    } else {
      NeighboursAscend(table, i + 1, k);
    }
  }

  lemma LessChain(a: string, b: string, c: string)
    requires CompareStrings(a, b) == Less && CompareStrings(b, c) == Less
    ensures CompareStrings(a, c) == Less
  {
    StringsTotal();
  }

  lemma {:induction false} LessAlong(table: seq<string>, i: nat, j: nat)
    requires AscendsFrom(table, 0) && i < j < |table|
    ensures CompareStrings(table[i], table[j]) == Less
    decreases j
  {
    NeighboursAscend(table, 0, j - 1);
    if i < j - 1 {
      LessAlong(table, i, j - 1);
      LessChain(table[i], table[j - 1], table[j]);
    }
  }

  lemma AscendsIsAscending(table: seq<string>)
    requires AscendsFrom(table, 0)
    ensures Ascending(table)
  {
    forall i, j | 0 <= i < j < |table| ensures CompareStrings(table[i], table[j]) == Less {
      LessAlong(table, i, j);
    }
  }

  /** Two ascending tables, the first of which ends below the start of the second. */
  lemma AscendingJoins(a: seq<string>, b: seq<string>)
    requires Ascending(a) && Ascending(b) && a != [] && b != [] && LessFrom(a[|a| - 1], b[0], 0)
    ensures Ascending(a + b)
  {
    var last, first := a[|a| - 1], b[0];
    LessFromIsLess(last, first, 0);
    assert last[0..] == last && first[0..] == first;
    forall i, j | 0 <= i < |a| && 0 <= j < |b| ensures CompareStrings(a[i], b[j]) == Less {
      if i < |a| - 1 { LessChain(a[i], last, first); }
      if j > 0 { LessChain(a[i], first, b[j]); }
    }
  }

  lemma BothAscend(a: seq<string>, b: seq<string>)
    requires a != [] && b != [] && AscendsFrom(a, 0) && AscendsFrom(b, 0) && LessFrom(a[|a| - 1], b[0], 0)
    ensures Ascending(a + b)
  {
    AscendsIsAscending(a);
    AscendsIsAscending(b);
    AscendingJoins(a, b);
  }

  lemma EnvironmentsAscend()
    ensures Ascending(EnvironmentWords())
  {
    BothAscend(EarlyEnvironments(), LateEnvironments());
  }

  lemma RegionsAscend()
    ensures Ascending(RegionWords())
  {
    BothAscend(EarlyRegions(), LateRegions());
  }

  lemma CloudsAscend()
    ensures Ascending(CloudWords())
  {
    BothAscend(EarlyClouds(), LateClouds());
  }

  lemma EarlyServicesAscend()
    ensures Ascending(EarlyServices())
  {
    BothAscend(EarliestServices(), MiddleServices());
  }

  lemma LateServicesAscend()
    ensures Ascending(LateServices())
  {
    BothAscend(LaterServices(), LastServices());
  }

  lemma SwappedInside(a: seq<string>, x: string, y: string, b: seq<string>)
    ensures Swapped(a + [x, y] + b, |a|) == a + [y, x] + b
  {
  }

  /** The service table is one exchange away from being sorted. */
  lemma ServicesAreOneSwapAway()
    ensures OneSwapFromAscending(ServiceWords(), 23)
  {
    EarlyServicesAscend();
    LateServicesAscend();
    assert Ascending(["imap", "img"]) by { AscendsIsAscending(["imap", "img"]); }
    AscendingJoins(EarlyServices(), ["imap", "img"]);
    AscendingJoins(EarlyServices() + ["imap", "img"], LateServices());
    SwappedInside(EarlyServices(), "img", "imap", LateServices());
  }

  /** With the two in the middle of the table, all members are found but these. */
  lemma AllButTwoAreFound(table: seq<string>, j: nat, value: string)
    requires OneSwapFromAscending(table, j) && j == |table| / 2 && |table| % 2 == 1 && j > 0
    ensures Found(table, value) <==> value in table && value != table[j] && value != table[j + 1]
  {
    FirstIsMissed(table, j);
    SecondIsMissed(table, j);
    if value in table {
      var k :| 0 <= k < |table| && table[k] == value;
      if k != j && k != j + 1 {
        OthersAreFound(table, j, k);
        ComparedByPlace(table, j, k, j);
        ComparedByPlace(table, j, k, j + 1);
      }
    }
  }

  lemma MiddleOfServices()
    ensures |ServiceWords()| == 47 && ServiceWords()[23] == "img" && ServiceWords()[24] == "imap"
  {
  }

  /** A word of the service table is found iff it is neither of the two that stand in the wrong order. */
  lemma ServiceFoundIff(value: string)
    ensures Found(ServiceWords(), value) <==> value in ServiceWords() && value != "img" && value != "imap"
  {
    MiddleOfServices();
    ServicesAreOneSwapAway();
    AllButTwoAreFound(ServiceWords(), 23, value);
  }

  lemma ServicesStartWithLetters(w: string)
    requires w in ServiceWords()
    ensures w != "" && 'a' <= w[0] <= 'z'
  {
  }

  // ----- the tables are apart -----

  lemma EarliestAreNoEnvironments(w: string)
    requires w in EarliestServices()
    ensures w !in EnvironmentWords()
  {
  }

  lemma EarliestAreNoPlaces(w: string)
    requires w in EarliestServices()
    ensures w !in RegionWords() && w !in CloudWords()
  {
  }

  lemma MiddleAreNoEnvironments(w: string)
    requires w in MiddleServices()
    ensures w !in EnvironmentWords()
  {
  }

  lemma MiddleAreNoPlaces(w: string)
    requires w in MiddleServices()
    ensures w !in RegionWords() && w !in CloudWords()
  {
  }

  lemma LaterAreNoEnvironments(w: string)
    requires w in LaterServices()
    ensures w !in EnvironmentWords()
  {
  }

  lemma LaterAreNoPlaces(w: string)
    requires w in LaterServices()
    ensures w !in RegionWords() && w !in CloudWords()
  {
  }

  lemma LastAreNoEnvironments(w: string)
    requires w in LastServices()
    ensures w !in EnvironmentWords()
  {
  }

  lemma LastAreNoPlaces(w: string)
    requires w in LastServices()
    ensures w !in RegionWords() && w !in CloudWords()
  {
  }

  /** No service word stands in another table. */
  lemma ServicesAreApart(w: string)
    requires w in ServiceWords() && w != "img" && w != "imap"
    ensures w !in EnvironmentWords() && w !in RegionWords() && w !in CloudWords()
  {
    if w in EarliestServices() {
      EarliestAreNoEnvironments(w);
      EarliestAreNoPlaces(w);
    } else if w in MiddleServices() {
      MiddleAreNoEnvironments(w);
      MiddleAreNoPlaces(w);
    } else if w in LaterServices() {
      LaterAreNoEnvironments(w);
      LaterAreNoPlaces(w);
    } else {
      LastAreNoEnvironments(w);
      LastAreNoPlaces(w);
    }
  }

  lemma PairIsApart(w: string)
    requires w == "img" || w == "imap"
    ensures w !in EnvironmentWords() && w !in RegionWords() && w !in CloudWords()
  {
  }
}
