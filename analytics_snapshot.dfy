/** The AnalyticsSnapshot model: an aggregated data payload with an
    integrity checksum computed once, when the snapshot is created.

    json_encode and hash('sha256', ...) are given as a `Hasher` value. */
module AnalyticsSnapshots {
  import opened Common

  /** The decoded `data` array: its entries in order. */
  type Payload = seq<(string, string)>

  datatype Hasher = Hasher(jsonEncode: Payload -> string, sha256: string -> string)

  /** calculateChecksum: the SHA-256 of the JSON encoding of the data. */
  function CalculateChecksum(h: Hasher, data: Payload): string {
    h.sha256(h.jsonEncode(data))
  }

  /** The checksum depends on the data only through its JSON encoding. */
  lemma ChecksumFollowsEncoding(h: Hasher, d1: Payload, d2: Payload)
    requires h.jsonEncode(d1) == h.jsonEncode(d2)
    ensures CalculateChecksum(h, d1) == CalculateChecksum(h, d2)
  {
  }

  /** PHP reads a null or empty array as false. */
  predicate HasData(data: Option<Payload>) {
    data.Some? && data.value != []
  }

  /** The creating hook on checksum: computed from the data only when the
      checksum is falsy and the data non-empty; otherwise left as given. */
  function ChecksumOnCreate(h: Hasher, checksum: Option<string>, data: Option<Payload>): (r: Option<string>)
    ensures PhpTruthy(checksum) ==> r == checksum
    ensures !PhpTruthy(checksum) && HasData(data) ==> r == Some(CalculateChecksum(h, data.value))
    ensures !PhpTruthy(checksum) && !HasData(data) ==> r == checksum
  {
    if !PhpTruthy(checksum) && HasData(data) then Some(CalculateChecksum(h, data.value)) else checksum
  }

  /** Running the hook twice is running it once, provided the hash never
      yields a string PHP reads as false (a SHA-256 hex digest never does). */
  lemma ChecksumOnCreateIdempotent(h: Hasher, checksum: Option<string>, data: Option<Payload>)
    requires forall s :: PhpTruthy(Some(h.sha256(s)))
    ensures ChecksumOnCreate(h, ChecksumOnCreate(h, checksum, data), data) == ChecksumOnCreate(h, checksum, data)
  {
    if !PhpTruthy(checksum) && HasData(data) {
      assert PhpTruthy(Some(h.sha256(h.jsonEncode(data.value))));
    }
  }

  class AnalyticsSnapshot {
    var data: Option<Payload>
    var checksum: Option<string>
    var createdAt: Option<int>

    constructor (data: Option<Payload>, checksum: Option<string>, createdAt: Option<int>)
      ensures this.data == data && this.checksum == checksum && this.createdAt == createdAt
    {
      this.data := data;
      this.checksum := checksum;
      this.createdAt := createdAt;
    }

    /** The `creating` hook registered in boot(). */
    method Creating(h: Hasher, now: int)
      modifies this`checksum, this`createdAt
      ensures checksum == ChecksumOnCreate(h, old(checksum), data)
      ensures createdAt == FillIfAbsent(old(createdAt), now)
    {
      if !PhpTruthy(checksum) && HasData(data) {
        checksum := Some(CalculateChecksum(h, data.value));
      }
      if createdAt.None? {
        createdAt := Some(now);
      }
    }
  }

  /** A caller-supplied checksum survives creation; an empty payload leaves
      a missing checksum missing. */
  method CreateScenario(h: Hasher, now: int, given: string, payload: Payload)
    requires given != "" && given != "0"
  {
    var s1 := new AnalyticsSnapshot(Some(payload), Some(given), None);
    s1.Creating(h, now);
    assert s1.checksum == Some(given) && s1.createdAt == Some(now);
    var s2 := new AnalyticsSnapshot(Some([]), None, Some(now - 5));
    s2.Creating(h, now);
    assert s2.checksum.None? && s2.createdAt == Some(now - 5);
    var s3 := new AnalyticsSnapshot(Some([("commits", "42")]), None, None);
    s3.Creating(h, now);
    assert s3.checksum == Some(CalculateChecksum(h, [("commits", "42")]));
  }
}
