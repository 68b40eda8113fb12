/** The dependency digest of a graph scan: every name is framed by its length, followed by
    the digest of the file's bytes, and the whole is hashed again. */
module GraphDigest {
  type Byte = n: int | 0 <= n < 256
  type Bytes = seq<Byte>

  const SHA_SIZE := 32

  /** A hash with the size of SHA-256; nothing else is asked of it here. */
  ghost predicate IsHash(sha: Bytes -> Bytes) {
    forall x :: |sha(x)| == SHA_SIZE
  }

  /** No two of these byte strings hash alike: the collision assumption, only where it is used. */
  ghost predicate NoCollision(sha: Bytes -> Bytes, hashed: set<Bytes>) {
    forall x, y :: x in hashed && y in hashed && sha(x) == sha(y) ==> x == y
  }

  datatype Record = Record(name: Bytes, data: Bytes)

  // ----- eight-byte lengths -------------------------------------------------------------

  const LIMIT := 0x1_0000_0000_0000_0000

  function BigEndian(n: nat, width: nat): (b: Bytes)
    ensures |b| == width
  {
    if width == 0 then [] else BigEndian(n / 256, width - 1) + [n % 256]
  }

  function FromBigEndian(b: Bytes): nat {
    if b == [] then 0 else FromBigEndian(b[..|b| - 1]) * 256 + b[|b| - 1]
  }

  function Power256(width: nat): nat { if width == 0 then 1 else 256 * Power256(width - 1) }

  lemma {:induction false} BigEndianRoundTrip(n: nat, width: nat)
    requires n < Power256(width)
    ensures FromBigEndian(BigEndian(n, width)) == n
  {
    if width > 0 {
      assert n / 256 < Power256(width - 1);
      BigEndianRoundTrip(n / 256, width - 1);
    }
  }

  lemma {:induction false} EightBytesHoldLengths()
    ensures Power256(8) == LIMIT
  {
    assert Power256(4) == 0x1_0000_0000;
  }

  // ----- the frame ------------------------------------------------------------------------

  /** Longer names are refused by the eight-byte length. */
  ghost predicate Frameable(rs: seq<Record>) {
    forall i :: 0 <= i < |rs| ==> |rs[i].name| < LIMIT
  }

  ghost function Framed(sha: Bytes -> Bytes, r: Record): Bytes {
    BigEndian(|r.name|, 8) + r.name + sha(r.data)
  }

  ghost function Frame(sha: Bytes -> Bytes, rs: seq<Record>): Bytes {
    if rs == [] then [] else Framed(sha, rs[0]) + Frame(sha, rs[1..])
  }

  ghost function Digest(sha: Bytes -> Bytes, rs: seq<Record>): Bytes { sha(Frame(sha, rs)) }

  /** Every byte string a scan hands to the hash. */
  ghost function Hashed(sha: Bytes -> Bytes, rs: seq<Record>): set<Bytes> {
    {Frame(sha, rs)} + set i | 0 <= i < |rs| :: rs[i].data
  }

  /** Two framed records that begin the same stream carry the same name and file digest. */
  lemma {:induction false} FirstFrameDecodes(sha: Bytes -> Bytes, a: Record, b: Record, restA: Bytes, restB: Bytes)
    requires IsHash(sha) && |a.name| < LIMIT && |b.name| < LIMIT
    requires Framed(sha, a) + restA == Framed(sha, b) + restB
    ensures a.name == b.name && sha(a.data) == sha(b.data) && restA == restB
  {
    var s, t := Framed(sha, a) + restA, Framed(sha, b) + restB;
    EightBytesHoldLengths();
    assert s[..8] == BigEndian(|a.name|, 8) && t[..8] == BigEndian(|b.name|, 8);
    BigEndianRoundTrip(|a.name|, 8);
    BigEndianRoundTrip(|b.name|, 8);
    var n := |a.name|;
    assert n == |b.name|;
    assert s[8..8 + n] == a.name && t[8..8 + n] == b.name;
    assert s[8 + n..8 + n + SHA_SIZE] == sha(a.data) && t[8 + n..8 + n + SHA_SIZE] == sha(b.data);
    assert s[8 + n + SHA_SIZE..] == restA && t[8 + n + SHA_SIZE..] == restB;
  }

  /** The framing is uniquely decodable. */
  lemma {:induction false} FrameDecodes(sha: Bytes -> Bytes, a: seq<Record>, b: seq<Record>)
    requires IsHash(sha) && Frameable(a) && Frameable(b)
    requires Frame(sha, a) == Frame(sha, b)
    ensures |a| == |b|
    ensures forall i :: 0 <= i < |a| ==> a[i].name == b[i].name && sha(a[i].data) == sha(b[i].data)
  {
    if a != [] && b != [] {
      FirstFrameDecodes(sha, a[0], b[0], Frame(sha, a[1..]), Frame(sha, b[1..]));
      FrameDecodes(sha, a[1..], b[1..]);
      forall i | 0 <= i < |a| ensures a[i].name == b[i].name && sha(a[i].data) == sha(b[i].data) {
        if i > 0 { assert a[1..][i - 1] == a[i] && b[1..][i - 1] == b[i]; }
      }
    } else {
      assert a != [] ==> |Frame(sha, a)| >= 8;
      assert b != [] ==> |Frame(sha, b)| >= 8;
    }
  }

  /** Equal digests mean equal names and bytes, unless two of the strings hashed for these two
      scans collide. */
  lemma {:induction false} DigestDeterminesScan(sha: Bytes -> Bytes, a: seq<Record>, b: seq<Record>)
    requires IsHash(sha) && Frameable(a) && Frameable(b)
    requires NoCollision(sha, Hashed(sha, a) + Hashed(sha, b))
    requires Digest(sha, a) == Digest(sha, b)
    ensures a == b
  {
    FrameDecodes(sha, a, b);
    forall i | 0 <= i < |a| ensures a[i] == b[i] {
      assert a[i].data in Hashed(sha, a) && b[i].data in Hashed(sha, b);
    }
  }

  // ----- the scan loop ----------------------------------------------------------------------

  lemma {:induction false} FrameNext(sha: Bytes -> Bytes, records: seq<Record>, n: nat, fed: Bytes)
    requires Frameable(records) && n < |records|
    ensures fed + Frame(sha, records[n..])
         == (((fed + BigEndian(|records[n].name|, 8)) + records[n].name) + sha(records[n].data)) + Frame(sha, records[n + 1..])
  {
    assert records[n..][0] == records[n] && records[n..][1..] == records[n + 1..];
  }

  /** The running hash of `dependencies`: one update each for length, name and file digest. */
  method ScanDigest(sha: Bytes -> Bytes, records: seq<Record>) returns (digest: Bytes)
    requires Frameable(records)
    ensures digest == Digest(sha, records)
  {
    var fed: Bytes := [];
    for n := 0 to |records|
      invariant fed + Frame(sha, records[n..]) == Frame(sha, records)
    {
      var r := records[n];
      FrameNext(sha, records, n, fed);
      fed := fed + BigEndian(|r.name|, 8);
      fed := fed + r.name;
      fed := fed + sha(r.data);
    }
    assert fed + Frame(sha, []) == fed;
    digest := sha(fed);
  }
}
