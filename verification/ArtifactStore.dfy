/** `artifacts/store.py`, `InMemoryArtifactStore`: the content-addressed store. SHA-256 is an unknown
    function that yields 64 lower-case hex digits; collisions are not excluded. */
module ArtifactStore {
  import opened Wrappers
  import Text

  type Bytes = seq<bv8>
  type Digest = Bytes -> string

  datatype StoreError =
    | HashCollision | MediaTypeFixed | BlankMediaType
    | LatestForbidden | MalformedAddress | NotFound | Corrupted

  datatype Manifest = Manifest(contentHash: string, sizeBytes: nat, mediaType: string)

  datatype State = State(objects: map<string, Bytes>, mediaTypes: map<string, string>)

  const EMPTY := State(map[], map[])

  ghost predicate IsDigest(digest: Digest) {
    forall p: Bytes :: |digest(p)| == 64 && forall c :: c in digest(p) ==> Text.IsHexDigit(c)
  }

  /** `content_hash` */
  function Address(digest: Digest, p: Bytes): string {
    "sha256:" + digest(p)
  }

  function Lower(c: char): char {
    if 'A' <= c <= 'Z' then (c as int + 32) as char else c
  }

  /** `value.lower() == "latest"` */
  predicate SaysLatest(a: string) {
    |a| == 6 && forall i | 0 <= i < 6 :: Lower(a[i]) == "latest"[i]
  }

  /** `_validate_hash` */
  function AddressError(a: string): Option<StoreError> {
    if SaysLatest(a) then Some(LatestForbidden)
    else if "sha256:" <= a && |a| == 71 && forall c :: c in a[7..] ==> Text.IsHexDigit(c) then None
    else Some(MalformedAddress)
  }

  /** `not media_type.strip()` */
  predicate Blank(s: string) {
    forall c :: c in s ==> Text.IsSpace(c)
  }

  // ---------- the operations on states ----------

  /** What keeps `put` from writing. */
  function WriteRefusal(digest: Digest, s: State, p: Bytes, mediaType: string): Option<StoreError> {
    var a := Address(digest, p);
    if a in s.objects && s.objects[a] != p then Some(HashCollision)
    else if a in s.mediaTypes && s.mediaTypes[a] != mediaType then Some(MediaTypeFixed)
    else None
  }

  function Write(s: State, a: string, p: Bytes, mediaType: string): State {
    State(s.objects[a := p], s.mediaTypes[a := mediaType])
  }

  function AfterPut(digest: Digest, s: State, p: Bytes, mediaType: string): State {
    if WriteRefusal(digest, s, p, mediaType).Some? then s else Write(s, Address(digest, p), p, mediaType)
  }

  /** What `put` returns. The manifest, and with it the media type, is only checked after the write. */
  function PutOutcome(digest: Digest, s: State, p: Bytes, mediaType: string): Result<Manifest, StoreError> {
    var refusal := WriteRefusal(digest, s, p, mediaType);
    if refusal.Some? then Err(refusal.value)
    else if Blank(mediaType) then Err(BlankMediaType)
    else Ok(Manifest(Address(digest, p), |p|, mediaType))
  }

  function GetOutcome(digest: Digest, s: State, a: string): Result<Bytes, StoreError> {
    var e := AddressError(a);
    if e.Some? then Err(e.value)
    else if a !in s.objects then Err(NotFound)
    else if Address(digest, s.objects[a]) != a then Err(Corrupted)
    else Ok(s.objects[a])
  }

  function VerifyOutcome(digest: Digest, s: State, m: Manifest): Result<bool, StoreError> {
    match GetOutcome(digest, s, m.contentHash)
    case Err(NotFound) => Ok(false)
    case Err(Corrupted) => Ok(false)
    case Err(e) => Err(e)
    case Ok(p) => Ok(|p| == m.sizeBytes && m.contentHash in s.mediaTypes && s.mediaTypes[m.contentHash] == m.mediaType)
  }

  class InMemoryArtifactStore {
    const digest: Digest
    var objects: map<string, Bytes>
    var mediaTypes: map<string, string>

    ghost predicate Valid()
      reads this
    {
      IsDigest(digest) && Consistent(digest, Contents())
    }

    ghost function Contents(): State
      reads this
    {
      State(objects, mediaTypes)
    }

    constructor (digest: Digest)
      requires IsDigest(digest)
      ensures Valid() && this.digest == digest && Contents() == EMPTY
    {
      this.digest := digest;
      objects, mediaTypes := map[], map[];
    }

    /** Writes are refused when they would change stored bytes or a media type, and keep everything else. */
    method Put(payload: Bytes, mediaType: string) returns (r: Result<Manifest, StoreError>)
      requires Valid()
      modifies this
      ensures Valid()
      ensures r == PutOutcome(digest, old(Contents()), payload, mediaType)
      ensures Contents() == AfterPut(digest, old(Contents()), payload, mediaType)
      ensures forall a :: a in old(objects) ==> a in objects && objects[a] == old(objects)[a] && mediaTypes[a] == old(mediaTypes)[a]
    {
      var address := Address(digest, payload);
      if address in objects && objects[address] != payload {
        return Err(HashCollision);
      }
      if address in mediaTypes && mediaTypes[address] != mediaType {
        return Err(MediaTypeFixed);
      }
      PutIsConsistent(digest, Contents(), payload, mediaType);
      objects := objects[address := payload];
      mediaTypes := mediaTypes[address := mediaType];
      AddressIsValid(digest, payload);
      if Blank(mediaType) {
        return Err(BlankMediaType);
      }
      return Ok(Manifest(address, |payload|, mediaType));
    }

    /** `get`: the stored bytes, checked against their address. */
    method Get(address: string) returns (r: Result<Bytes, StoreError>)
      requires Valid()
      ensures r == GetOutcome(digest, Contents(), address)
      ensures r.Ok? ==> Address(digest, r.value) == address
    {
      var bad := AddressError(address);
      if bad.Some? {
        return Err(bad.value);
      }
      if address !in objects {
        return Err(NotFound);
      }
      var payload := objects[address];
      if Address(digest, payload) != address {
        return Err(Corrupted);
      }
      return Ok(payload);
    }

    /** `exists` */
    method Exists(address: string) returns (r: Result<bool, StoreError>)
      requires Valid()
      ensures r.Err? <==> AddressError(address).Some?
      ensures r.Ok? ==> (r.value <==> GetOutcome(digest, Contents(), address).Ok?)
    {
      var bad := AddressError(address);
      return if bad.Some? then Err(bad.value) else Ok(address in objects);
    }

    /** `verify`: missing or corrupted objects do not verify. */
    method Verify(m: Manifest) returns (r: Result<bool, StoreError>)
      requires Valid()
      ensures r == VerifyOutcome(digest, Contents(), m)
    {
      var got := Get(m.contentHash);
      match got
      case Err(e) =>
        return if e == NotFound || e == Corrupted then Ok(false) else Err(e);
      case Ok(payload) =>
        return Ok(|payload| == m.sizeBytes && m.contentHash in mediaTypes && mediaTypes[m.contentHash] == m.mediaType);
    }
  }

  // ---------- what every state keeps ----------

  /** Each payload hashes to its address, and exactly the stored addresses have a media type. */
  ghost predicate Consistent(digest: Digest, s: State) {
    && (forall a :: a in s.objects ==> Address(digest, s.objects[a]) == a)
    && s.objects.Keys == s.mediaTypes.Keys
  }

  lemma {:induction false} PutIsConsistent(digest: Digest, s: State, p: Bytes, mediaType: string)
    requires Consistent(digest, s)
    ensures Consistent(digest, AfterPut(digest, s, p, mediaType))
  {
  }

  lemma {:induction false} AddressIsValid(digest: Digest, p: Bytes)
    requires IsDigest(digest)
    ensures AddressError(Address(digest, p)).None?
  {
    assert Address(digest, p)[7..] == digest(p);
  }

  // ---------- whole runs ----------

  datatype Op = Op(payload: Bytes, mediaType: string)

  /** The store after a history of puts, successful or not. */
  function After(digest: Digest, ops: seq<Op>): State {
    if ops == [] then EMPTY
    else AfterPut(digest, After(digest, ops[..|ops| - 1]), ops[|ops| - 1].payload, ops[|ops| - 1].mediaType)
  }

  /** The first put to an address. */
  function FirstPut(digest: Digest, ops: seq<Op>, a: string): Option<Op> {
    if ops == [] then None
    else
      var earlier := FirstPut(digest, ops[..|ops| - 1], a);
      if earlier.Some? then earlier
      else if Address(digest, ops[|ops| - 1].payload) == a then Some(ops[|ops| - 1])
      else None
  }

  /** After any history the store holds, for each address, the bytes and media type of the first put to it:
      it is append-only, and no later put changes anything. */
  lemma {:induction false} StoreHoldsFirstPuts(digest: Digest, ops: seq<Op>)
    ensures Consistent(digest, After(digest, ops))
    ensures forall a :: a in After(digest, ops).objects <==> FirstPut(digest, ops, a).Some?
    ensures forall a :: a in After(digest, ops).objects ==>
              && After(digest, ops).objects[a] == FirstPut(digest, ops, a).value.payload
              && After(digest, ops).mediaTypes[a] == FirstPut(digest, ops, a).value.mediaType
  {
    if ops != [] {
      var op := ops[|ops| - 1];
      StoreHoldsFirstPuts(digest, ops[..|ops| - 1]);
      PutIsConsistent(digest, After(digest, ops[..|ops| - 1]), op.payload, op.mediaType);
    }
  }

  /** A put succeeds iff its media type is not blank and the first put to its address, if there was one,
      stored the same bytes under the same media type. */
  lemma {:induction false} PutSucceedsIff(digest: Digest, ops: seq<Op>, p: Bytes, mediaType: string)
    ensures PutOutcome(digest, After(digest, ops), p, mediaType).Ok?
       <==> !Blank(mediaType) && (FirstPut(digest, ops, Address(digest, p)) in {None, Some(Op(p, mediaType))})
  {
    StoreHoldsFirstPuts(digest, ops);
  }

  lemma {:induction false} FirstPutStays(digest: Digest, ops: seq<Op>, more: seq<Op>, a: string)
    requires FirstPut(digest, ops, a).Some?
    ensures FirstPut(digest, ops + more, a) == FirstPut(digest, ops, a)
  {
    if more == [] {
      assert ops + more == ops;
    } else {
      assert (ops + more)[..|ops + more| - 1] == ops + more[..|more| - 1];
      FirstPutStays(digest, ops, more[..|more| - 1], a);
    }
  }

  /** A manifest that `put` returned verifies, and its address yields the same bytes, after every later
      history. */
  lemma {:induction false} ManifestVerifiesForever(digest: Digest, ops: seq<Op>, p: Bytes, mediaType: string, more: seq<Op>)
    requires IsDigest(digest) && PutOutcome(digest, After(digest, ops), p, mediaType).Ok?
    ensures var m := PutOutcome(digest, After(digest, ops), p, mediaType).value;
            var later := After(digest, ops + [Op(p, mediaType)] + more);
            GetOutcome(digest, later, m.contentHash) == Ok(p) && VerifyOutcome(digest, later, m) == Ok(true)
  {
    var here := ops + [Op(p, mediaType)];
    var a := Address(digest, p);
    PutSucceedsIff(digest, ops, p, mediaType);
    assert here[..|here| - 1] == ops;
    assert FirstPut(digest, here, a) == Some(Op(p, mediaType));
    FirstPutStays(digest, here, more, a);
    StoreHoldsFirstPuts(digest, here + more);
    AddressIsValid(digest, p);
  }

  /** Verification is honest: a manifest verifies iff it describes the first put to its address. */
  lemma {:induction false} VerifiesIff(digest: Digest, ops: seq<Op>, m: Manifest)
    requires AddressError(m.contentHash).None?
    ensures VerifyOutcome(digest, After(digest, ops), m).Ok?
    ensures VerifyOutcome(digest, After(digest, ops), m).value
       <==> (var first := FirstPut(digest, ops, m.contentHash);
             first.Some? && |first.value.payload| == m.sizeBytes && first.value.mediaType == m.mediaType)
  {
    StoreHoldsFirstPuts(digest, ops);
  }

  /** No reachable state is corrupted. */
  lemma {:induction false} NothingIsCorrupted(digest: Digest, ops: seq<Op>, a: string)
    ensures GetOutcome(digest, After(digest, ops), a) != Err(Corrupted)
  {
    StoreHoldsFirstPuts(digest, ops);
  }

  /** A put with a blank media type raises, yet it is a first put like any other: the payload is stored, and
      no later put of that payload ever succeeds. */
  lemma {:induction false} BlankPutBlocksForever(digest: Digest, ops: seq<Op>, p: Bytes, blank: string, more: seq<Op>, mediaType: string)
    requires IsDigest(digest) && Blank(blank) && FirstPut(digest, ops, Address(digest, p)).None?
    ensures PutOutcome(digest, After(digest, ops), p, blank) == Err(BlankMediaType)
    ensures GetOutcome(digest, After(digest, ops + [Op(p, blank)]), Address(digest, p)) == Ok(p)
    ensures PutOutcome(digest, After(digest, ops + [Op(p, blank)] + more), p, mediaType).Err?
  {
    var here := ops + [Op(p, blank)];
    var a := Address(digest, p);
    StoreHoldsFirstPuts(digest, ops);
    assert here[..|here| - 1] == ops;
    assert FirstPut(digest, here, a) == Some(Op(p, blank));
    StoreHoldsFirstPuts(digest, here);
    AddressIsValid(digest, p);
    FirstPutStays(digest, here, more, a);
    PutSucceedsIff(digest, here + more, p, mediaType);
  }

  // ---------- addresses, spelled out ----------

  /** A successful put names the object by its digest, and states its size and media type. */
  lemma {:induction false} ManifestDescribes(digest: Digest, s: State, p: Bytes, mediaType: string)
    requires PutOutcome(digest, s, p, mediaType).Ok?
    ensures var m := PutOutcome(digest, s, p, mediaType).value;
            m.contentHash == "sha256:" + digest(p) && m.sizeBytes == |p| && m.mediaType == mediaType
  {
  }

  /** A well-formed address is the scheme and 64 lower-case hexadecimal digits. */
  lemma {:induction false} AddressIsWellFormedIff(a: string)
    ensures AddressError(a) == None <==>
              |a| == 71 && a[..7] == "sha256:" && forall i | 7 <= i < 71 :: a[i] in "0123456789abcdef"
  {
    if |a| == 71 && a[..7] == "sha256:" {
      assert a[7..] == seq(64, i requires 0 <= i < 64 => a[7 + i]);
      forall i | 7 <= i < 71 ensures a[i] in a[7..] && (Text.IsHexDigit(a[i]) <==> a[i] in "0123456789abcdef") {
        assert a[7..][i - 7] == a[i];
        Text.HexDigits(a[i]);
      }
    }
  }

  /** The word "latest" is refused in any mixture of cases. */
  lemma {:induction false} LatestIff(a: string)
    ensures AddressError(a) == Some(LatestForbidden) <==>
              && |a| == 6 && a[0] in "lL" && a[1] in "aA" && a[2] in "tT" && a[3] in "eE" && a[4] in "sS" && a[5] in "tT"
  {
    if |a| == 6 {
      LetterIn(a[0], 'l', "lL");
      LetterIn(a[1], 'a', "aA");
      LetterIn(a[2], 't', "tT");
      LetterIn(a[3], 'e', "eE");
      LetterIn(a[4], 's', "sS");
      LetterIn(a[5], 't', "tT");
    }
  }

  lemma {:induction false} LetterIn(c: char, lower: char, both: string)
    requires 'a' <= lower <= 'z' && |both| == 2 && both[0] == lower && both[1] as int == lower as int - 32
    ensures Lower(c) == lower <==> c in both
  {
    if Lower(c) == lower {
      assert c == both[0] || c == both[1];
    }
  }
}
