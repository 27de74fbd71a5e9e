/**
 Update packages and the objects they hold (updatehub/src/update_package/mod.rs,
 updatehub/src/object/info.rs).
 */
module Packages {
  import opened Wrappers

  /** One of the two installation sets of the device. */
  datatype InstallSet = A | B
  {
    function Other(): InstallSet {
      if A? then B else A
    }
  }

  datatype Object = Object(filename: string, sha256sum: string, size: nat, mode: string, remote: bool)

  datatype Hardware = Any | HardwareList(names: seq<string>)

  datatype Package = Package(uid: string, hardware: Hardware, objectsA: seq<Object>, objectsB: seq<Object>)
  {
    function Objects(target: InstallSet): seq<Object> {
      if target.A? then objectsA else objectsB
    }

    predicate CompatibleWith(device: string) {
      hardware.Any? || device in hardware.names
    }
  }

  datatype Status = Missing | Incomplete | Corrupted | Ready

  datatype IoError = IoError

  /** What the download directory holds under a name. `digest` is the SHA-256 of the content, in hex;
      `removable` tells whether removing it would succeed. */
  datatype Entry = Entry(isFile: bool, size: nat, digest: string, readable: bool, removable: bool)

  type Directory = map<string, Entry>

  /** A short file is not read at all; one that is not short is judged by its digest. */
  function StatusOf(o: Object, dir: Directory): Result<Status, IoError> {
    if o.sha256sum !in dir then Ok(Missing)
    else
      var entry := dir[o.sha256sum];
      if entry.size < o.size then Ok(Incomplete)
      else if !entry.readable then Err(IoError)
      else if entry.digest != o.sha256sum then Ok(Corrupted)
      else Ok(Ready)
  }

  predicate IsReady(o: Object, dir: Directory) {
    StatusOf(o, dir) == Ok(Ready)
  }

  // ---- Reading a file in chunks ----

  newtype Byte = b: int | 0 <= b < 0x100

  const CHUNK: nat := 1024

  /** However the reader cuts the content into chunks, the hasher absorbs all of it. */
  method HashContent(content: seq<Byte>, hash: seq<Byte> -> string) returns (digest: string)
    ensures digest == hash(content)
  {
    var absorbed: seq<Byte> := [];
    var position: nat := 0;
    while true
      invariant position <= |content| && absorbed == content[..position]
      decreases |content| - position
    {
      ghost var rest := |content| - position;
      ghost var most := if rest <= CHUNK then rest else CHUNK;
      assert most <= CHUNK && position + most <= |content| && (most == 0 <==> position == |content|);
      // A read gives at most a chunk, and nothing only at the end of the content.
      var len: nat :| len <= CHUNK && position + len <= |content| && (len == 0 <==> position == |content|);
      assert content[..position] + content[position..position + len] == content[..position + len];
      absorbed := absorbed + content[position..position + len];
      position := position + len;
      if len == 0 {
        break;
      }
    }
    assert absorbed == content;
    digest := hash(absorbed);
  }

  method FileStatus(o: Object, file: Option<seq<Byte>>, hash: seq<Byte> -> string) returns (status: Status)
    ensures Ok(status) == StatusOf(o,
              if file.None? then map[]
              else map[o.sha256sum := Entry(true, |file.value|, hash(file.value), true, true)])
  {
    if file.None? {
      return Missing;
    }
    if |file.value| < o.size {
      return Incomplete;
    }
    var digest := HashContent(file.value, hash);
    return if digest != o.sha256sum then Corrupted else Ready;
  }

  /** The verdict on a file that can be read, for any content: it is missing, too short, of another digest, or
      ready; and one that is too short is not read. */
  lemma StatusIs(o: Object, dir: Directory)
    ensures var there := o.sha256sum in dir;
            && (StatusOf(o, dir) == Ok(Missing) <==> !there)
            && (StatusOf(o, dir) == Ok(Incomplete) <==> there && dir[o.sha256sum].size < o.size)
            && (StatusOf(o, dir) == Ok(Corrupted) <==>
                  && there && dir[o.sha256sum].size >= o.size
                  && dir[o.sha256sum].readable && dir[o.sha256sum].digest != o.sha256sum)
            && (StatusOf(o, dir) == Ok(Ready) <==>
                  && there && dir[o.sha256sum].size >= o.size
                  && dir[o.sha256sum].readable && dir[o.sha256sum].digest == o.sha256sum)
            && (IsReady(o, dir) <==> StatusOf(o, dir) == Ok(Ready))
  {
  }
}
