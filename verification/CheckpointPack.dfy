/**
 Splitting a database into compressed parts and putting it back together
 (scripts/private_discord_checkpoint.py).

 Hashing and compression are the functions of a `Codec`; decompression inverts compression and says
 of any other file which bytes it yields before it ends or breaks.  `fails(n)` says whether the n-th
 deadline check or file operation fails.
 */
module CheckpointPack {
  import opened Options
  import opened Sequences

  newtype Byte = x: int | 0 <= x < 256
  type Bytes = seq<Byte>
  type Hash = string

  /** A raw piece of the database, or the content of a part's file. */
  datatype Blob = Blob(bytes: Bytes)

  const MAX_PART: nat := 1073741824
  const RAW_PART: nat := 536870912
  const MAX_PARTS: nat := 64
  const BLOCK: nat := 1048576

  /** What a compressed file yields; a file that is not clean ends in an error. */
  datatype Stream = Stream(bytes: Bytes, clean: bool)

  datatype Codec = Codec(sha: Bytes -> Hash, gzip: Bytes -> Bytes, gunzip: Bytes -> Stream) {
    ghost predicate Valid() {
      forall x :: gunzip(gzip(x)) == Stream(x, true)
    }

    /** Compressing a full part never doubles it, and yields at least a header. */
    ghost predicate Fits() {
      forall x :: |x| <= RAW_PART ==> 0 < |gzip(x)| <= MAX_PART
    }
  }

  /** `name` is the number in the part's file name. */
  datatype Part = Part(name: nat, bytes: nat, rawBytes: nat, sha: Hash)
  datatype Database = Database(bytes: nat, sha: Hash)

  // ---------------------------------------------------------------- the inventory

  function RawTotal(parts: seq<Part>): nat {
    if parts == [] then 0 else RawTotal(parts[..|parts| - 1]) + parts[|parts| - 1].rawBytes
  }

  /** The manifest validator's rules for the parts. */
  predicate ValidInventory(db: Database, parts: seq<Part>) {
    && 0 < |parts| <= MAX_PARTS
    && (forall k :: 0 <= k < |parts| ==>
          parts[k].name == k && 0 < parts[k].bytes <= MAX_PART && 0 < parts[k].rawBytes <= RAW_PART)
    && RawTotal(parts) == db.bytes
    && 0 < db.bytes <= RAW_PART * MAX_PARTS
  }

  // ---------------------------------------------------------------- splitting

  function Split(data: Bytes): (r: seq<Blob>)
    ensures forall k :: 0 <= k < |r| ==> 0 < |r[k].bytes| <= RAW_PART
    ensures forall k :: 0 <= k < |r| - 1 ==> |r[k].bytes| == RAW_PART
    ensures |r| == 0 <==> data == []
  {
    if data == [] then []
    else if |data| <= RAW_PART then [Blob(data)]
    else [Blob(data[..RAW_PART])] + Split(data[RAW_PART..])
  }

  function Joined(pieces: seq<Blob>): Bytes {
    if pieces == [] then [] else Joined(pieces[..|pieces| - 1]) + pieces[|pieces| - 1].bytes
  }

  lemma {:induction false} JoinedFirst(first: Blob, rest: seq<Blob>)
    ensures Joined([first] + rest) == first.bytes + Joined(rest)
    decreases |rest|
  {
    if rest == [] {
      assert [first] + rest == [first] && [first][..0] == [];
    } else {
      var n := |rest| - 1;
      JoinedFirst(first, rest[..n]);
      assert ([first] + rest)[..n + 1] == [first] + rest[..n];
      Regroup(first.bytes, Joined(rest[..n]), rest[n].bytes);
    }
  }

  lemma {:induction false} SplitJoins(data: Bytes)
    ensures Joined(Split(data)) == data
  {
    if |data| > RAW_PART {
      SplitJoins(data[RAW_PART..]);
      JoinedFirst(Blob(data[..RAW_PART]), Split(data[RAW_PART..]));
    } else if data != [] {
      JoinedFirst(Blob(data), []);
      assert [Blob(data)] + [] == [Blob(data)];
    }
  }

  lemma {:induction false} SplitCount(data: Bytes)
    ensures |data| <= RAW_PART * |Split(data)| < |data| + RAW_PART
  {
    if |data| > RAW_PART {
      SplitCount(data[RAW_PART..]);
    }
  }

  function PartOf(codec: Codec, k: nat, piece: Blob): Part {
    var file := codec.gzip(piece.bytes);
    Part(k, |file|, |piece.bytes|, codec.sha(file))
  }

  /** The parts and files a database is packed into. */
  function PartsOf(codec: Codec, pieces: seq<Blob>): seq<Part> {
    seq(|pieces|, k requires 0 <= k < |pieces| => PartOf(codec, k, pieces[k]))
  }

  function FilesOf(codec: Codec, pieces: seq<Blob>): seq<Blob> {
    seq(|pieces|, k requires 0 <= k < |pieces| => Blob(codec.gzip(pieces[k].bytes)))
  }

  lemma {:induction false} RawTotalOf(codec: Codec, pieces: seq<Blob>)
    ensures RawTotal(PartsOf(codec, pieces)) == |Joined(pieces)|
    decreases |pieces|
  {
    if pieces != [] {
      var n := |pieces| - 1;
      RawTotalOf(codec, pieces[..n]);
      assert PartsOf(codec, pieces)[..n] == PartsOf(codec, pieces[..n]);
    }
  }

  // ---------------------------------------------------------------- writing

  /**
   What goes wrong: `fails(i, n)` is the n-th check or operation on part i, `accepts(i, n, len)` what the
   n-th write to its file answers when offered `len` bytes.
   */
  datatype Host = Host(fails: (nat, nat) -> bool, accepts: (nat, nat, nat) -> int) {
    /** Nothing fails and every write accepts something. */
    ghost predicate Healthy() {
      && (forall i, n :: !fails(i, n))
      && (forall i, n, len :: len > 0 ==> 0 < accepts(i, n, len) <= len)
    }
  }

  /** The file of one part and the hash of what has been accepted by it. */
  class HashingWriter {
    const host: Host
    const index: nat
    var calls: nat
    var file: Bytes
    var hashed: Bytes
    var size: nat

    constructor (host: Host, index: nat)
      ensures this.host == host && this.index == index && Exact() && file == []
    {
      this.host, this.index := host, index;
      calls, file, hashed, size := 0, [], [], 0;
    }

    /** Every byte of the file has been hashed and counted. */
    predicate Exact()
      reads this
    {
      hashed == file && size == |file|
    }

    method Try() returns (ok: bool)
      modifies this`calls
      ensures host.Healthy() ==> ok
    {
      ok := !host.fails(index, calls);
      calls := calls + 1;
    }

    /** One write to the file: it takes a first part of the data and answers how much, perhaps wrongly. */
    method Accept(data: Bytes) returns (written: int)
      requires data != []
      modifies this`calls, this`file
      ensures 0 < written <= |data| ==> file == old(file) + data[..written]
      ensures old(file) <= file
      ensures host.Healthy() ==> 0 < written <= |data|
    {
      written := host.accepts(index, calls, |data|);
      calls := calls + 1;
      if 0 < written <= |data| {
        file := file + data[..written];
      } else {
        var taken: nat :| taken <= |data|;
        file := file + data[..taken];
      }
    }

    /** Short writes are continued; on success exactly the data has been written, hashed and counted. */
    method Write(data: Bytes) returns (ok: bool)
      requires Exact()
      modifies this
      ensures ok ==> Exact() && file == old(file) + data && |file| <= MAX_PART
      ensures hashed <= file && size == |hashed| && old(file) <= hashed
      ensures host.Healthy() && |old(file)| + |data| <= MAX_PART ==> ok
    {
      if size + |data| > MAX_PART {
        return false;
      }
      var done := 0;
      while done < |data|
        invariant 0 <= done <= |data|
        invariant Exact() && file == old(file) + data[..done]
      {
        ok := Try();
        if !ok {
          return;
        }
        var written := Accept(data[done..]);
        if !(0 < written <= |data| - done) {
          return false;
        }
        assert data[done..][..written] == data[done..done + written];
        hashed := hashed + data[done..done + written];
        size := size + written;
        assert data[..done + written] == data[..done] + data[done..done + written];
        assert old(file) + data[..done] + data[done..done + written] == old(file) + data[..done + written];
        done := done + written;
      }
      assert data[..|data|] == data;
      ok := true;
    }

    /** The compressor hands its output over in pieces of its own choosing. */
    method WriteAll(data: Bytes) returns (ok: bool)
      requires Exact() && file == []
      modifies this
      ensures ok ==> Exact() && file == data && |file| <= MAX_PART
      ensures host.Healthy() && |data| <= MAX_PART ==> ok
    {
      var done := 0;
      while done < |data|
        invariant 0 <= done <= |data| && Exact() && file == data[..done] && |file| <= MAX_PART
      {
        var n: nat :| 0 < n <= |data| - done;
        ok := Write(data[done..done + n]);
        if !ok {
          return;
        }
        assert data[..done + n] == data[..done] + data[done..done + n];
        done := done + n;
      }
      assert data[..|data|] == data;
      ok := true;
    }
  }

  /** Reads at most one part of raw bytes, block by block, and writes it compressed. */
  method PackPart(codec: Codec, host: Host, index: nat, data: Bytes, start: nat)
    returns (ok: bool, part: Part, file: Bytes, raw: nat)
    requires start < |data|
    ensures ok ==> raw == (if |data| - start <= RAW_PART then |data| - start else RAW_PART)
    ensures ok ==> file == codec.gzip(data[start..start + raw]) && part == PartOf(codec, index, Blob(data[start..start + raw]))
    ensures ok ==> 0 < |file| <= MAX_PART
    ensures host.Healthy() && codec.Fits() ==> ok
  {
    part, file, raw := Part(0, 0, 0, ""), [], 0;
    var sink := new HashingWriter(host, index);
    var piece: Bytes := [];
    while raw < RAW_PART
      invariant start + raw <= |data| && raw <= RAW_PART && piece == data[start..start + raw] && sink.Exact() && sink.file == []
      invariant sink.host == host && sink.index == index && fresh(sink)
      decreases RAW_PART - raw
    {
      ok := sink.Try();
      if !ok {
        return;
      }
      var n := if BLOCK < RAW_PART - raw then BLOCK else RAW_PART - raw;
      if n > |data| - start - raw {
        n := |data| - start - raw;
      }
      if n == 0 {
        break;
      }
      assert data[start..start + raw] + data[start + raw..start + raw + n] == data[start..start + raw + n];
      piece := piece + data[start + raw..start + raw + n];
      raw := raw + n;
    }
    ok := sink.WriteAll(codec.gzip(piece));
    if !ok || sink.size == 0 {
      assert codec.Fits() ==> 0 < |codec.gzip(piece)| <= MAX_PART;
      return false, part, file, raw;
    }
    file := sink.file;
    part := Part(index, sink.size, raw, codec.sha(sink.hashed));
  }

  /**
   Packs a database.  On success the parts and files are those of its split, and the recorded size and
   hash are the database's; without failures every database within capacity can be packed.
   */
  method Pack(codec: Codec, host: Host, data: Bytes) returns (ok: bool, db: Database, parts: seq<Part>, files: seq<Blob>)
    ensures ok ==> db == Database(|data|, codec.sha(data))
    ensures ok ==> parts == PartsOf(codec, Split(data)) && files == FilesOf(codec, Split(data))
    ensures ok && data != [] ==> ValidInventory(db, parts)
    ensures host.Healthy() && codec.Fits() && |data| <= RAW_PART * MAX_PARTS ==> ok
  {
    var hashed;
    db := Database(0, "");
    ok, parts, files, hashed := PackParts(codec, host, data);
    if !ok {
      return;
    }
    db := Database(|hashed|, codec.sha(hashed));
    if data != [] {
      PackedInventory(codec, data);
    }
  }

  /** Takes the database apart piece by piece. */
  method PackParts(codec: Codec, host: Host, data: Bytes) returns (ok: bool, parts: seq<Part>, files: seq<Blob>, hashed: Bytes)
    ensures ok ==> hashed == data && |Split(data)| <= MAX_PARTS
    ensures ok ==> parts == PartsOf(codec, Split(data)) && files == FilesOf(codec, Split(data)) && FilesFit(files)
    ensures host.Healthy() && codec.Fits() && |data| <= RAW_PART * MAX_PARTS ==> ok
  {
    parts, files, hashed := [], [], [];
    var position := 0;
    ghost var pieces: seq<Blob> := [];
    NothingPacked(codec, data);
    while position < |data|
      invariant 0 <= position <= |data| && hashed == data[..position] && |parts| <= MAX_PARTS
      invariant Packing(codec, data, position, pieces, parts, files)
    {
      if |parts| >= MAX_PARTS {
        TooManyParts(codec, data, position, pieces, parts, files);
        return false, parts, files, hashed;
      }
      var part, file, raw;
      ok, part, file, raw := PackPart(codec, host, |parts|, data, position);
      if !ok {
        return;
      }
      PieceTaken(codec, data, position, raw, pieces, parts, files);
      pieces := pieces + [Blob(data[position..position + raw])];
      parts, files := parts + [part], files + [Blob(file)];
      hashed := hashed + data[position..position + raw];
      position := position + raw;
    }
    AllPacked(codec, data, pieces, parts, files);
    ok := true;
  }

  lemma NothingPacked(codec: Codec, data: Bytes)
    ensures data[..0] == [] && Packing(codec, data, 0, [], [], [])
  {
    assert data[0..] == data;
  }

  lemma TooManyParts(codec: Codec, data: Bytes, position: nat, pieces: seq<Blob>, parts: seq<Part>, files: seq<Blob>)
    requires position < |data| && Packing(codec, data, position, pieces, parts, files) && |parts| >= MAX_PARTS
    ensures |data| > RAW_PART * MAX_PARTS
  {
    SplitCount(data);
    assert |Split(data)| > MAX_PARTS;
  }

  lemma AllPacked(codec: Codec, data: Bytes, pieces: seq<Blob>, parts: seq<Part>, files: seq<Blob>)
    requires Packing(codec, data, |data|, pieces, parts, files)
    ensures data[..|data|] == data && Split(data) == pieces && FilesFit(files)
  {
    assert data[|data|..] == [] && pieces + [] == pieces;
  }

  ghost predicate FilesFit(files: seq<Blob>) {
    forall k :: 0 <= k < |files| ==> 0 < |files[k].bytes| <= MAX_PART
  }

  /** The pieces before the position are packed. */
  ghost predicate Packing(codec: Codec, data: Bytes, position: nat, pieces: seq<Blob>, parts: seq<Part>, files: seq<Blob>)
    requires position <= |data|
  {
    && Split(data) == pieces + Split(data[position..])
    && parts == PartsOf(codec, pieces) && files == FilesOf(codec, pieces)
    && FilesFit(files)
  }

  lemma PieceTaken(codec: Codec, data: Bytes, position: nat, raw: nat, pieces: seq<Blob>, parts: seq<Part>, files: seq<Blob>)
    requires position < |data| && Packing(codec, data, position, pieces, parts, files)
    requires raw == if |data| - position <= RAW_PART then |data| - position else RAW_PART
    requires 0 < |codec.gzip(data[position..position + raw])| <= MAX_PART
    ensures var piece := Blob(data[position..position + raw]);
      && Packing(codec, data, position + raw, pieces + [piece], parts + [PartOf(codec, |parts|, piece)],
                 files + [Blob(codec.gzip(piece.bytes))])
      && data[..position + raw] == data[..position] + piece.bytes
  {
    NextPiece(data, position, raw);
    var piece := Blob(data[position..position + raw]);
    Regroup(pieces, [piece], Split(data[position + raw..]));
    PartsNext(codec, pieces, piece);
    Prefixes(data, position, position + raw);
  }

  lemma Prefixes<T>(s: seq<T>, i: nat, j: nat)
    requires i <= j <= |s|
    ensures s[..j] == s[..i] + s[i..j]
  {
  }

  lemma PartsNext(codec: Codec, pieces: seq<Blob>, piece: Blob)
    ensures PartsOf(codec, pieces + [piece]) == PartsOf(codec, pieces) + [PartOf(codec, |pieces|, piece)]
    ensures FilesOf(codec, pieces + [piece]) == FilesOf(codec, pieces) + [Blob(codec.gzip(piece.bytes))]
  {
    var n, more := |pieces|, pieces + [piece];
    forall k | 0 <= k < n ensures more[k] == pieces[k] {
    }
  }

  /** What a database is packed into passes the manifest validator. */
  lemma PackedInventory(codec: Codec, data: Bytes)
    requires data != [] && |Split(data)| <= MAX_PARTS
    requires FilesFit(FilesOf(codec, Split(data)))
    ensures ValidInventory(Database(|data|, codec.sha(data)), PartsOf(codec, Split(data)))
  {
    SplitCount(data);
    SplitJoins(data);
    RawTotalOf(codec, Split(data));
    var files, parts := FilesOf(codec, Split(data)), PartsOf(codec, Split(data));
    forall k | 0 <= k < |parts| ensures 0 < parts[k].bytes <= MAX_PART {
      assert 0 < |files[k].bytes| <= MAX_PART;
    }
  }

  lemma NextPiece(data: Bytes, position: nat, raw: nat)
    requires position < |data|
    requires raw == if |data| - position <= RAW_PART then |data| - position else RAW_PART
    ensures Split(data[position..]) == [Blob(data[position..position + raw])] + Split(data[position + raw..])
  {
    var rest := data[position..];
    if |rest| <= RAW_PART {
      assert data[position..position + raw] == rest;
    } else {
      assert rest[..RAW_PART] == data[position..position + raw];
      assert rest[RAW_PART..] == data[position + raw..];
    }
  }

  // ---------------------------------------------------------------- restoring

  type Files = map<nat, Blob>

  /** The downloaded file is the one described, and unpacks cleanly to as many bytes as promised. */
  predicate Intact(codec: Codec, part: Part, files: Files) {
    part.name in files &&
    var file := files[part.name].bytes;
    && |file| == part.bytes && codec.sha(file) == part.sha
    && codec.gunzip(file).clean && |codec.gunzip(file).bytes| == part.rawBytes
  }

  predicate AllIntact(codec: Codec, parts: seq<Part>, files: Files) {
    forall k :: 0 <= k < |parts| ==> Intact(codec, parts[k], files)
  }

  function Restored(codec: Codec, parts: seq<Part>, files: Files): Bytes
    requires forall k :: 0 <= k < |parts| ==> parts[k].name in files
  {
    if parts == [] then []
    else
      var n := |parts| - 1;
      Restored(codec, parts[..n], files) + codec.gunzip(files[parts[n].name].bytes).bytes
  }

  lemma {:induction false} RawTotalGrows(parts: seq<Part>, k: nat)
    requires k < |parts|
    ensures RawTotal(parts[..k]) + parts[k].rawBytes <= RawTotal(parts)
    decreases |parts|
  {
    var n := |parts| - 1;
    if k < n {
      RawTotalGrows(parts[..n], k);
      assert parts[..n][..k] == parts[..k];
    }
  }

  /** One part; at most the promised bytes are written whatever the file holds. */
  method UnpackPart(codec: Codec, host: Host, index: nat, part: Part, files: Files) returns (ok: bool, written: Bytes)
    ensures |written| <= part.rawBytes
    ensures ok ==> Intact(codec, part, files) && written == codec.gunzip(files[part.name].bytes).bytes
    ensures host.Healthy() && Intact(codec, part, files) ==> ok
  {
    written := [];
    if part.name !in files {
      return false, written;
    }
    var file := files[part.name].bytes;
    if |file| != part.bytes || codec.sha(file) != part.sha {
      return false, written;
    }
    var stream, calls: nat := codec.gunzip(file), 0;
    while true
      invariant |written| <= part.rawBytes && |written| <= |stream.bytes| && written == stream.bytes[..|written|]
      decreases |stream.bytes| - |written|
    {
      var available := |stream.bytes| - |written|;
      var breaks: bool := *;
      if !stream.clean && (breaks || available == 0) {
        return false, written;
      }
      if available == 0 {
        break;
      }
      var wanted := if BLOCK < part.rawBytes - |written| + 1 then BLOCK else part.rawBytes - |written| + 1;
      var n: nat :| 0 < n <= wanted && n <= available;
      if host.fails(index, calls) {
        return false, written;
      }
      calls := calls + 1;
      if |written| + n > part.rawBytes {
        return false, written;
      }
      Prefixes(stream.bytes, |written|, |written| + n);
      written := written + stream.bytes[|written|..|written| + n];
    }
    assert stream.bytes[..|stream.bytes|] == stream.bytes;
    ok := |written| == part.rawBytes;
  }

  /**
   Restores a database.  However hostile the files are, never more than the inventory's total is
   written; success means that every file was intact and that size, hash and facts are as recorded.
   */
  method Unpack<Facts(==)>(codec: Codec, host: Host, facts: Bytes -> Facts, db: Database, expected: Facts,
                           parts: seq<Part>, files: Files)
    returns (ok: bool, output: Bytes)
    ensures |output| <= RawTotal(parts)
    ensures ok ==> AllIntact(codec, parts, files) && output == Restored(codec, parts, files)
    ensures ok ==> |output| == db.bytes && codec.sha(output) == db.sha && facts(output) == expected
    ensures host.Healthy() && AllIntact(codec, parts, files) && Matches(codec, facts, db, expected, Restored(codec, parts, files))
      ==> ok
  {
    output := [];
    for i := 0 to |parts|
      invariant forall k :: 0 <= k < i ==> Intact(codec, parts[k], files)
      invariant output == Restored(codec, parts[..i], files) && |output| <= RawTotal(parts[..i])
      invariant RawTotal(parts[..i]) <= RawTotal(parts)
    {
      assert parts[..i + 1][..i] == parts[..i];
      RawTotalGrows(parts, i);
      var written;
      ok, written := UnpackPart(codec, host, i, parts[i], files);
      output := output + written;
      if !ok {
        return;
      }
    }
    assert parts[..|parts|] == parts;
    ok := |output| == db.bytes && codec.sha(output) == db.sha && facts(output) == expected;
  }

  predicate Matches<Facts(==)>(codec: Codec, facts: Bytes -> Facts, db: Database, expected: Facts, output: Bytes) {
    |output| == db.bytes && codec.sha(output) == db.sha && facts(output) == expected
  }

  // ---------------------------------------------------------------- the round trip

  /** The files under their names. */
  function Stored(files: seq<Blob>): Files {
    map k: nat | 0 <= k < |files| :: files[k]
  }

  lemma {:induction false} PackedPiecesRestore(codec: Codec, pieces: seq<Blob>, files: Files)
    requires codec.Valid()
    requires forall k :: 0 <= k < |pieces| ==> k in files && files[k] == Blob(codec.gzip(pieces[k].bytes))
    ensures AllIntact(codec, PartsOf(codec, pieces), files)
    ensures Restored(codec, PartsOf(codec, pieces), files) == Joined(pieces)
    decreases |pieces|
  {
    if pieces != [] {
      var n := |pieces| - 1;
      PackedPiecesRestore(codec, pieces[..n], files);
      PartsNext(codec, pieces[..n], pieces[n]);
      assert pieces[..n] + [pieces[n]] == pieces;
      var parts := PartsOf(codec, pieces);
      assert parts[..n] == PartsOf(codec, pieces[..n]);
      assert codec.gunzip(codec.gzip(pieces[n].bytes)) == Stream(pieces[n].bytes, true);
      forall k | 0 <= k < |parts| ensures Intact(codec, parts[k], files) {
        if k < n {
          assert Intact(codec, parts[..n][k], files);
        }
      }
    }
  }

  /** Unpacking what was packed gives the database back: every check passes and the bytes are the same. */
  lemma PackedDatabaseRestores(codec: Codec, data: Bytes)
    requires codec.Valid()
    ensures var parts, files := PartsOf(codec, Split(data)), Stored(FilesOf(codec, Split(data)));
      AllIntact(codec, parts, files) && Restored(codec, parts, files) == data
  {
    PackedPiecesRestore(codec, Split(data), Stored(FilesOf(codec, Split(data))));
    SplitJoins(data);
  }

  /** Every part but the last holds a full piece. */
  lemma PartsAreFull(codec: Codec, data: Bytes)
    ensures var parts := PartsOf(codec, Split(data));
      forall k :: 0 <= k < |parts| - 1 ==> parts[k].rawBytes == RAW_PART
  {
  }
}
