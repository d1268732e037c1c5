/**
  The file system the pipeline reads and writes, as a value: a map from resolved path
  (repeated '/' collapsed, see `Text.Collapse`) to the file stored there.
*/
module FileSystem {
  import opened Text
  import opened Table
  import opened Values

  /** What a file holds, as far as the model needs to know. */
  datatype Payload =
    | Opaque                               // bytes the model does not interpret
    | Record(entries: map<string, Value>)  // a pickled dictionary (pickle is the identity)
    | Pickled(frame: Frame)                // a frame dumped by joblib

  datatype Blob = Blob(size: nat, payload: Payload)

  type Disk = map<string, Blob>

  /** `os.path.exists(path)`. */
  predicate Exists(disk: Disk, path: string) {
    Collapse(path) in disk
  }

  /** Open `path` for writing and leave `blob` in it. */
  function Write(disk: Disk, path: string, blob: Blob): (r: Disk)
    ensures Exists(r, path) && r[Collapse(path)] == blob
    ensures forall p :: p in disk && p != Collapse(path) ==> p in r && r[p] == disk[p]
    ensures r.Keys == disk.Keys + {Collapse(path)}
  {
    disk[Collapse(path) := blob]
  }
}
