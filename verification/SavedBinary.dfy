/** The stored form of a downloaded file: a version byte, then lengths as base-128 varints. */
module SavedBinary {
  import opened Wrappers

  type Byte = b: nat | b < 256

  const WORD := 0x1_0000_0000_0000_0000

  // ---------------------------------------------------------------- encodings

  /** Base-128 groups, least significant first; all but the last have the high bit set. */
  function Varint(n: nat): seq<Byte> {
    if n < 128 then [n] else [n % 128 + 128] + Varint(n / 128)
  }

  function BigEndian(n: nat, width: nat): seq<Byte> {
    if width == 0 then [] else BigEndian(n / 256, width - 1) + [n % 256]
  }

  /** Two's complement in 64 bits. */
  function Word(n: int): nat {
    if n < 0 then (n + WORD) % WORD else n % WORD
  }

  function Signed(n: nat): int {
    if n >= WORD / 2 then n - WORD else n
  }

  function Unsigned(bytes: seq<Byte>): nat {
    if |bytes| == 0 then 0 else Unsigned(bytes[..|bytes| - 1]) * 256 + bytes[|bytes| - 1]
  }

  function Blob(bytes: seq<Byte>): seq<Byte> {
    Varint(|bytes|) + bytes
  }

  /** `updated` is in whole seconds; `urlHash` is None where the version has none. */
  datatype Saved = Saved(content: seq<Byte>, updated: int, etag: seq<Byte>, urlHash: Option<seq<Byte>>)

  /** What a file in memory holds: lengths and times fit in 64 bits. */
  predicate Storable(s: Saved) {
    && |s.content| < WORD && |s.etag| < WORD && (s.urlHash.Some? ==> |s.urlHash.value| < WORD)
    && -(WORD / 2) <= s.updated < WORD / 2
  }

  function Body(s: Saved): seq<Byte> {
    Blob(s.content) + (BigEndian(Word(s.updated), 8) + Blob(s.etag))
  }

  function Version(s: Saved): Byte {
    if s.urlHash.Some? then 2 else 1
  }

  function Tail(s: Saved): seq<Byte> {
    if s.urlHash.Some? then Blob(s.urlHash.value) else []
  }

  function Encode(s: Saved): seq<Byte> {
    [Version(s)] + (Body(s) + Tail(s))
  }

  // ----------------------------------------------------------------- decoding

  /** A value and the bytes after it; None is an error. */
  type Read<T> = Option<(T, seq<Byte>)>

  /** A 64-bit reader accepts ten groups, the tenth worth one bit. */
  function ReadVarint(data: seq<Byte>, i: nat): Read<nat>
    decreases |data|
  {
    if i >= 10 || |data| == 0 then None
    else if data[0] < 128 then if i == 9 && data[0] > 1 then None else Some((data[0], data[1..]))
    else match ReadVarint(data[1..], i + 1)
      case None => None
      case Some((n, rest)) => Some((data[0] - 128 + 128 * n, rest))
  }

  function ReadBlob(data: seq<Byte>): Read<seq<Byte>> {
    match ReadVarint(data, 0)
    case None => None
    case Some((n, rest)) => if n > |rest| then None else Some((rest[..n], rest[n..]))
  }

  function ReadInt64(data: seq<Byte>): Read<int> {
    if |data| < 8 then None else Some((Signed(Unsigned(data[..8])), data[8..]))
  }

  function ReadHash(version: Byte, data: seq<Byte>): Read<Option<seq<Byte>>> {
    if version < 2 then Some((None, data))
    else match ReadBlob(data)
      case None => None
      case Some((hash, rest)) => Some((Some(hash), rest))
  }

  /** The part that both versions share. */
  function ReadFront(data: seq<Byte>): Read<Saved> {
    match ReadBlob(data)
    case None => None
    case Some((content, afterContent)) =>
      match ReadInt64(afterContent)
      case None => None
      case Some((updated, afterTime)) =>
        match ReadBlob(afterTime)
        case None => None
        case Some((etag, rest)) => Some((Saved(content, updated, etag, None), rest))
  }

  function ReadVersion(version: Byte, data: seq<Byte>): Read<Saved> {
    match ReadFront(data)
    case None => None
    case Some((front, afterFront)) =>
      match ReadHash(version, afterFront)
      case None => None
      case Some((hash, rest)) => Some((front.(urlHash := hash), rest))
  }

  function Decode(data: seq<Byte>): Read<Saved> {
    if |data| == 0 then None else ReadVersion(data[0], data[1..])
  }

  // --------------------------------------------------------------- round trip

  /** One above the greatest number that the groups from the i-th on can hold: 2 to the power of 64 - 7i. */
  function Room(i: nat): nat {
    match i
    case 0 => WORD
    case 1 => 0x200_0000_0000_0000
    case 2 => 0x4_0000_0000_0000
    case 3 => 0x800_0000_0000
    case 4 => 0x10_0000_0000
    case 5 => 0x2000_0000
    case 6 => 0x40_0000
    case 7 => 0x8000
    case 8 => 0x100
    case 9 => 2
    case _ => 0
  }

  lemma {:induction false} VarintRoundTrip(n: nat, i: nat, rest: seq<Byte>)
    requires n < Room(i)
    ensures ReadVarint(Varint(n) + rest, i) == Some((n, rest))
    decreases n
  {
    RoomShrinks(n, i);
    if n < 128 {
      ReadLastGroup(n, rest, i);
    } else {
      var more: nat, group: Byte := n / 128, n % 128 + 128;
      VarintRoundTrip(more, i + 1, rest);
      ReadGroup(group, Varint(more) + rest, i);
      assert Varint(n) + rest == [group] + (Varint(more) + rest);
      assert group - 128 + 128 * more == n by { Regrouped(n); }
    }
  }

  lemma RoomShrinks(n: nat, i: nat)
    requires n < Room(i)
    ensures i <= 9 && (i == 9 ==> n < 2)
    ensures n >= 128 ==> n / 128 < Room(i + 1)
  {
  }

  lemma Regrouped(n: nat)
    ensures n % 128 + 128 * (n / 128) == n
  {
  }

  lemma ReadLastGroup(n: nat, rest: seq<Byte>, i: nat)
    requires n < 128 && i <= 9 && (i == 9 ==> n < 2)
    ensures ReadVarint(Varint(n) + rest, i) == Some((n, rest))
  {
    assert Varint(n) + rest == [n] + rest;
  }

  lemma ReadGroup(b: Byte, rest: seq<Byte>, i: nat)
    requires b >= 128 && i < 10
    ensures ReadVarint([b] + rest, i) ==
            match ReadVarint(rest, i + 1) case None => None case Some((n, left)) => Some((b - 128 + 128 * n, left))
  {
    assert ([b] + rest)[1..] == rest;
  }

  lemma BlobRoundTrip(bytes: seq<Byte>, rest: seq<Byte>)
    requires |bytes| < WORD
    ensures ReadBlob(Blob(bytes) + rest) == Some((bytes, rest))
  {
    VarintRoundTrip(|bytes|, 0, bytes + rest);
    assert Blob(bytes) + rest == Varint(|bytes|) + (bytes + rest);
  }

  lemma {:induction false} BigEndianRoundTrip(n: nat, width: nat)
    requires n < Power(width)
    ensures |BigEndian(n, width)| == width && Unsigned(BigEndian(n, width)) == n
    decreases width
  {
    if width == 0 {
    } else {
      var bytes := BigEndian(n, width);
      BigEndianRoundTrip(n / 256, width - 1);
      assert bytes[..|bytes| - 1] == BigEndian(n / 256, width - 1);
    }
  }

  function Power(width: nat): nat {
    if width == 0 then 1 else 256 * Power(width - 1)
  }

  lemma Int64RoundTrip(n: int, rest: seq<Byte>)
    requires -(WORD / 2) <= n < WORD / 2
    ensures ReadInt64(BigEndian(Word(n), 8) + rest) == Some((n, rest))
  {
    assert Power(2) == 65536 && Power(4) == 0x1_0000_0000 && Power(6) == 0x1_0000_0000_0000 && Power(8) == WORD;
    var bytes := BigEndian(Word(n), 8);
    BigEndianRoundTrip(Word(n), 8);
    assert (bytes + rest)[..8] == bytes && (bytes + rest)[8..] == rest;
  }

  lemma FrontRoundTrip(s: Saved, rest: seq<Byte>)
    requires Storable(s)
    ensures ReadFront(Body(s) + rest) == Some((s.(urlHash := None), rest))
  {
    var time := BigEndian(Word(s.updated), 8);
    BlobRoundTrip(s.content, time + (Blob(s.etag) + rest));
    Int64RoundTrip(s.updated, Blob(s.etag) + rest);
    BlobRoundTrip(s.etag, rest);
    assert Body(s) + rest == Blob(s.content) + (time + (Blob(s.etag) + rest));
  }

  /**
   Decoding an encoding gives back the file and exactly the bytes that follow it, for every file and
   either version.
   */
  lemma RoundTrip(s: Saved, rest: seq<Byte>)
    requires Storable(s)
    ensures Decode(Encode(s) + rest) == Some((s, rest))
  {
    var data := Encode(s) + rest;
    Regroup(Version(s), Body(s), Tail(s), rest);
    FrontRoundTrip(s, Tail(s) + rest);
    HashRoundTrip(s, rest);
    assert data[0] == Version(s) && data[1..] == Body(s) + (Tail(s) + rest);
  }

  lemma HashRoundTrip(s: Saved, rest: seq<Byte>)
    requires Storable(s)
    ensures ReadHash(Version(s), Tail(s) + rest) == Some((s.urlHash, rest))
  {
    if s.urlHash.Some? {
      BlobRoundTrip(s.urlHash.value, rest);
    } else {
      assert Tail(s) + rest == rest;
    }
  }

  lemma Regroup(version: Byte, body: seq<Byte>, tail: seq<Byte>, rest: seq<Byte>)
    ensures var data := [version] + (body + tail) + rest;
            data[0] == version && data[1..] == body + (tail + rest)
  {
  }

  // ------------------------------------------------- behaviour on other inputs

  lemma {:induction false} VarintExtends(data: seq<Byte>, i: nat, more: seq<Byte>)
    requires ReadVarint(data, i).Some?
    ensures var (n, rest) := ReadVarint(data, i).value;
            |rest| < |data| && ReadVarint(data + more, i) == Some((n, rest + more))
    decreases |data|
  {
    assert (data + more)[1..] == data[1..] + more;
    if data[0] >= 128 {
      VarintExtends(data[1..], i + 1, more);
    }
  }

  lemma BlobExtends(data: seq<Byte>, more: seq<Byte>)
    requires ReadBlob(data).Some?
    ensures var (bytes, rest) := ReadBlob(data).value;
            |rest| < |data| && ReadBlob(data + more) == Some((bytes, rest + more))
  {
    VarintExtends(data, 0, more);
    var (n, rest) := ReadVarint(data, 0).value;
    assert (rest + more)[..n] == rest[..n] && (rest + more)[n..] == rest[n..] + more;
  }

  lemma Int64Extends(data: seq<Byte>, more: seq<Byte>)
    requires ReadInt64(data).Some?
    ensures var (n, rest) := ReadInt64(data).value;
            |rest| < |data| && ReadInt64(data + more) == Some((n, rest + more))
  {
    assert (data + more)[..8] == data[..8] && (data + more)[8..] == data[8..] + more;
  }

  lemma FrontExtends(data: seq<Byte>, more: seq<Byte>)
    requires ReadFront(data).Some?
    ensures var (s, rest) := ReadFront(data).value;
            |rest| < |data| && ReadFront(data + more) == Some((s, rest + more))
  {
    BlobExtends(data, more);
    var afterContent := ReadBlob(data).value.1;
    Int64Extends(afterContent, more);
    BlobExtends(ReadInt64(afterContent).value.1, more);
  }

  /** Bytes after a file neither change it nor get consumed, and decoding never reads past the end. */
  lemma DecodeExtends(data: seq<Byte>, more: seq<Byte>)
    requires Decode(data).Some?
    ensures var (s, rest) := Decode(data).value;
            |rest| < |data| && Decode(data + more) == Some((s, rest + more))
  {
    assert (data + more)[1..] == data[1..] + more;
    FrontExtends(data[1..], more);
    if data[0] >= 2 {
      BlobExtends(ReadFront(data[1..]).value.1, more);
    }
  }

  /** A truncated file is never mistaken for a whole one. */
  lemma TruncationIsRejected(s: Saved, n: nat)
    requires Storable(s) && n < |Encode(s)|
    ensures Decode(Encode(s)[..n]).None?
  {
    var part, missing := Encode(s)[..n], Encode(s)[n..];
    assert part + missing == Encode(s) == Encode(s) + [];
    RoundTrip(s, []);
    if Decode(part).Some? {
      DecodeExtends(part, missing);
    }
  }

  // -------------------------------------------------------------- the program

  /** A cursor over bytes that never moves past the end. */
  class Reader {
    const data: seq<Byte>
    var pos: nat

    predicate Valid()
      reads this
    {
      pos <= |data|
    }

    function Rest(): seq<Byte>
      requires Valid()
      reads this
    {
      data[pos..]
    }

    constructor (data: seq<Byte>)
      ensures Valid() && this.data == data && Rest() == data
    {
      this.data := data;
      pos := 0;
    }

    method ReadByte() returns (b: Option<Byte>)
      requires Valid()
      modifies this
      ensures Valid()
      ensures if old(Rest()) == [] then b.None? && Rest() == []
              else b == Some(old(Rest())[0]) && Rest() == old(Rest())[1..]
    {
      if pos == |data| {
        return None;
      }
      b := Some(data[pos]);
      pos := pos + 1;
    }

    method ReadFull(n: nat) returns (bytes: seq<Byte>)
      requires Valid() && n <= |Rest()|
      modifies this
      ensures Valid() && bytes == old(Rest())[..n] && Rest() == old(Rest())[n..]
    {
      bytes := data[pos..pos + n];
      pos := pos + n;
    }

    method ReadUvarint() returns (n: Option<nat>)
      requires Valid()
      modifies this
      ensures Valid()
      ensures n.None? <==> ReadVarint(old(Rest()), 0).None?
      ensures n.Some? ==> ReadVarint(old(Rest()), 0) == Some((n.value, Rest()))
    {
      var x: nat := 0;
      for i := 0 to 10
        invariant Valid()
        invariant ReadVarint(old(Rest()), 0) == Resumed(ReadVarint(Rest(), i), x, i)
      {
        ghost var before := Rest();
        ResumedEnd(before, i, x);
        var b := ReadByte();
        if b.None? {
          return None;
        }
        if b.value < 128 {
          if i == 9 && b.value > 1 {
            return None;
          }
          return Some(x + Shifted(b.value, i));
        }
        ResumedStep(before, i, x);
        x := x + Shifted(b.value - 128, i);
      }
      return None;
    }

    method ReadBytes() returns (bytes: Option<seq<Byte>>)
      requires Valid()
      modifies this
      ensures Valid()
      ensures bytes.None? <==> ReadBlob(old(Rest())).None?
      ensures bytes.Some? ==> ReadBlob(old(Rest())) == Some((bytes.value, Rest()))
    {
      var n := ReadUvarint();
      if n.None? || n.value > |data| - pos {
        return None;
      }
      var all := ReadFull(n.value);
      return Some(all);
    }

    method ReadTime() returns (seconds: Option<int>)
      requires Valid()
      modifies this
      ensures Valid()
      ensures seconds.None? <==> ReadInt64(old(Rest())).None?
      ensures seconds.Some? ==> ReadInt64(old(Rest())) == Some((seconds.value, Rest()))
    {
      if |data| - pos < 8 {
        return None;
      }
      var bytes := ReadFull(8);
      return Some(Signed(Unsigned(bytes)));
    }
  }

  /** A group moved up by i groups. */
  function Shifted(n: nat, i: nat): nat {
    if i == 0 then n else 128 * Shifted(n, i - 1)
  }

  lemma {:induction false} ShiftedSum(a: nat, b: nat, i: nat)
    ensures Shifted(a + 128 * b, i) == Shifted(a, i) + Shifted(b, i + 1)
  {
    if i == 0 {
      assert Shifted(b, 1) == 128 * Shifted(b, 0);
    } else {
      ShiftedSum(a, b, i - 1);
    }
  }

  /** A number whose lower i groups have been read already, as x. */
  function Resumed(read: Read<nat>, x: nat, i: nat): Read<nat> {
    match read
    case None => None
    case Some((n, rest)) => Some((x + Shifted(n, i), rest))
  }

  lemma ResumedEnd(data: seq<Byte>, i: nat, x: nat)
    requires i < 10
    ensures data == [] ==> Resumed(ReadVarint(data, i), x, i).None?
    ensures data != [] && data[0] < 128 ==>
              Resumed(ReadVarint(data, i), x, i) ==
              if i == 9 && data[0] > 1 then None else Some((x + Shifted(data[0], i), data[1..]))
  {
  }

  lemma ResumedStep(data: seq<Byte>, i: nat, x: nat)
    requires i < 10 && |data| > 0 && data[0] >= 128
    ensures Resumed(ReadVarint(data, i), x, i) ==
            Resumed(ReadVarint(data[1..], i + 1), x + Shifted(data[0] - 128, i), i + 1)
  {
    match ReadVarint(data[1..], i + 1)
    case None =>
    case Some((n, rest)) => ShiftedSum(data[0] - 128, n, i);
  }

  lemma Assembled(version: Byte, a: seq<Byte>, b: seq<Byte>, c: seq<Byte>, d: seq<Byte>, e: seq<Byte>, f: seq<Byte>,
                  g: seq<Byte>)
    ensures [version] + a + b + c + d + e + f + g == [version] + (((a + b) + (c + (d + e))) + (f + g))
  {
  }

  /** The record that is written to and read from the cache. */
  class File {
    var content: seq<Byte>
    var updated: int
    var etag: seq<Byte>
    var urlHash: seq<Byte>

    function Value(): Saved
      reads this
    {
      Saved(content, updated, etag, Some(urlHash))
    }

    method Marshal() returns (buffer: seq<Byte>)
      ensures buffer == Encode(Value())
    {
      buffer := [2];
      var contentLength := WriteUvarint(|content|);
      buffer := buffer + contentLength + content;
      var seconds := WriteInt64(Word(updated));
      buffer := buffer + seconds;
      var etagLength := WriteUvarint(|etag|);
      buffer := buffer + etagLength + etag;
      var hashLength := WriteUvarint(|urlHash|);
      buffer := buffer + hashLength + urlHash;
      Assembled(2, contentLength, content, seconds, etagLength, etag, hashLength, urlHash);
    }

    method UnmarshalFront(reader: Reader) returns (ok: bool)
      requires reader.Valid()
      modifies this, reader
      ensures reader.Valid() && urlHash == old(urlHash)
      ensures ok <==> ReadFront(old(reader.Rest())).Some?
      ensures ok ==> ReadFront(old(reader.Rest())) == Some((Saved(content, updated, etag, None), reader.Rest()))
    {
      var bytes := reader.ReadBytes();
      if bytes.None? {
        return false;
      }
      content := bytes.value;
      var seconds := reader.ReadTime();
      if seconds.None? {
        return false;
      }
      updated := seconds.value;
      bytes := reader.ReadBytes();
      if bytes.None? {
        return false;
      }
      etag := bytes.value;
      return true;
    }

    /** A version without a hash leaves the field alone. */
    method UnmarshalHash(version: Byte, reader: Reader) returns (ok: bool)
      requires reader.Valid()
      modifies `urlHash, reader
      ensures reader.Valid()
      ensures ok <==> ReadHash(version, old(reader.Rest())).Some?
      ensures ok ==>
                var hash := ReadHash(version, old(reader.Rest())).value.0;
                urlHash == if hash.Some? then hash.value else old(urlHash)
    {
      if version < 2 {
        return true;
      }
      var bytes := reader.ReadBytes();
      if bytes.None? {
        return false;
      }
      urlHash := bytes.value;
      return true;
    }

    method UnmarshalVersion(version: Byte, reader: Reader) returns (ok: bool)
      requires reader.Valid()
      modifies this, reader
      ensures ok <==> ReadVersion(version, old(reader.Rest())).Some?
      ensures ok ==> Value() == Replaced(ReadVersion(version, old(reader.Rest())).value.0, old(urlHash))
    {
      ok := UnmarshalFront(reader);
      if ok {
        ok := UnmarshalHash(version, reader);
      }
    }

    method Unmarshal(data: seq<Byte>) returns (ok: bool)
      modifies this
      ensures ok <==> Decode(data).Some?
      ensures ok ==> Value() == Replaced(Decode(data).value.0, old(urlHash))
    {
      var reader := new Reader(data);
      var version := reader.ReadByte();
      if version.None? {
        return false;
      }
      ok := UnmarshalVersion(version.value, reader);
    }
  }

  function Replaced(s: Saved, urlHash: seq<Byte>): Saved {
    if s.urlHash.Some? then s else s.(urlHash := Some(urlHash))
  }

  method WriteUvarint(n: nat) returns (bytes: seq<Byte>)
    ensures bytes == Varint(n)
  {
    bytes := [];
    var left := n;
    while left >= 128
      invariant bytes + Varint(left) == Varint(n)
    {
      assert Varint(left) == [left % 128 + 128] + Varint(left / 128);
      bytes, left := bytes + [left % 128 + 128], left / 128;
    }
    bytes := bytes + [left];
  }

  method WriteInt64(n: nat) returns (bytes: seq<Byte>)
    ensures bytes == BigEndian(n, 8)
  {
    bytes := [];
    var left := n;
    for i := 0 to 8
      invariant BigEndian(left, 8 - i) + bytes == BigEndian(n, 8)
    {
      bytes, left := [left % 256] + bytes, left / 256;
    }
  }
}
