/** The bytes of a data tile (src/ct_static.rs; the tile format of static Certificate Transparency logs), written out. */
module TileFormat {
  import opened Basics
  import opened Orders
  import opened StaticTiles

  /** Two and three bytes in network order. */
  function Two(n: nat): Bytes
    requires n < 65_536
  {
    [(n / 256) as byte, (n % 256) as byte]
  }

  function Three(n: nat): Bytes
    requires n < 16_777_216
  {
    [(n / 65_536) as byte, (n / 256 % 256) as byte, (n % 256) as byte]
  }

  lemma NoMore(s: Bytes)
    ensures s + EncodeAll([]) == s
  {
  }

  lemma OneEntry(e: Entry)
    requires e.Valid()
    ensures TileCertificates(Encode(e), 1) == Some([e.Der()])
  {
    assert AllValid([e]) && [e][1..] == [];
    NoMore(Encode(e));
    TileRoundTrip([e]);
    assert Ders([e]) == [e.Der()];
  }

  /** A certificate: time, type 0, the certificate behind three bytes of length, extensions and chain behind two each. */
  lemma CertificateIsRead(timestamp: Bytes, certificate: Bytes, extensions: Bytes, chain: Bytes)
    requires |timestamp| == 8 && |certificate| < 16_777_216 && |extensions| < 65_536 && |chain| < 65_536 && |chain| % 32 == 0
    ensures TileCertificates(
              timestamp + ([0, 0] + ((Three(|certificate|) + certificate) + ((Two(|extensions|) + extensions) + (Two(|chain|) + chain)))), 1)
            == Some([certificate])
  {
    OneEntry(X509Entry(timestamp, certificate, extensions, chain));
  }

  /** A precertificate: time, type 1, the issuer's key hash, the part to be signed, extensions, the precertificate, chain. */
  lemma PrecertificateIsRead(
      timestamp: Bytes, hash: Bytes, tbs: Bytes, extensions: Bytes, precertificate: Bytes, chain: Bytes)
    requires |timestamp| == 8 && |hash| == 32 && |tbs| < 16_777_216 && |extensions| < 65_536 && |precertificate| < 16_777_216
    requires |chain| < 65_536 && |chain| % 32 == 0
    ensures TileCertificates(
              timestamp + ([0, 1] + (hash + ((Three(|tbs|) + tbs) + ((Two(|extensions|) + extensions)
                           + ((Three(|precertificate|) + precertificate) + (Two(|chain|) + chain)))))), 1)
            == Some([precertificate])
  {
    OneEntry(PrecertEntry(timestamp, hash, tbs, extensions, precertificate, chain));
  }

  /** Entries of any other type are refused. */
  lemma OtherTypesAreRefused(payload: Bytes, expected: nat)
    requires |payload| >= 10 && payload[8..10] != [0, 0] && payload[8..10] != [0, 1]
    ensures TileCertificates(payload, expected).None?
  {
    assert payload[8..][0] == payload[8] && payload[8..][1] == payload[9];
    assert payload[8..10] == [payload[8], payload[9]];
    var t := ReadU16(payload[8..]);
    assert t.value.value != 0 && t.value.value != 1;
    assert ReadEntry(payload).None?;
  }
}
