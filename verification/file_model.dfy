/** The file document and its API mappers (src/models/File.ts). */
module FileModel {
  import opened ObjectIds

  datatype FileDoc = FileDoc(id: ObjectId, name: string, path: string, createdAt: int, updatedAt: int)

  datatype File = File(id: string, name: string, path: string, createdAt: int, updatedAt: int)

  predicate WellFormed(f: File) { IsHexId(f.id) }

  predicate Canonical(f: File) { IsCanonicalId(f.id) }

  function SerializeFile(d: FileDoc): (f: File)
    ensures Canonical(f) && WellFormed(f)
  {
    File(ToString(d.id), d.name, d.path, d.createdAt, d.updatedAt)
  }

  function DeSerializeFile(f: File): FileDoc
    requires WellFormed(f)
  {
    FileDoc(FromString(f.id), f.name, f.path, f.createdAt, f.updatedAt)
  }

  /** Every field is carried: the mappers are inverse in both directions. */
  lemma RoundTrips(d: FileDoc, f: File)
    ensures DeSerializeFile(SerializeFile(d)) == d
    ensures Canonical(f) ==> SerializeFile(DeSerializeFile(f)) == f
  {
  }

  function SerializeFiles(ds: seq<FileDoc>): (r: seq<File>)
    ensures |r| == |ds|
    ensures forall i :: 0 <= i < |ds| ==> r[i] == SerializeFile(ds[i])
  {
    seq(|ds|, i requires 0 <= i < |ds| => SerializeFile(ds[i]))
  }

  function DeSerializeFiles(fs: seq<File>): (r: seq<FileDoc>)
    requires forall i :: 0 <= i < |fs| ==> WellFormed(fs[i])
    ensures |r| == |fs|
    ensures forall i :: 0 <= i < |fs| ==> r[i] == DeSerializeFile(fs[i])
  {
    seq(|fs|, i requires 0 <= i < |fs| => DeSerializeFile(fs[i]))
  }

  /** The list mappers are inverse on document lists. */
  lemma ListRoundTrip(ds: seq<FileDoc>)
    ensures DeSerializeFiles(SerializeFiles(ds)) == ds
  {
    assert forall i :: 0 <= i < |ds| ==> DeSerializeFile(SerializeFile(ds[i])) == ds[i];
  }
}
