/**
 * Encodings as a backup assumes them exist, and a batch they accept whose modes a copy does not keep: the assumptions
 * of the other backup modules can be met.
 */
module BackupWitness {
  import opened Prelude
  import opened FileTree
  import opened TextOrder
  import opened BackupManifest
  import opened BackupVerification
  import opened BackupFill
  import opened BackupService
  import BodyModel

  type Byte = BodyModel.Byte

  // ----- trees of numbers, and their encoding ------------------------------------------------------

  datatype Tree = Leaf(n: nat) | Fork(left: Tree, right: Tree)

  function Unary(n: nat): Bytes {
    if n == 0 then [0] else [1] + Unary(n - 1)
  }

  function Encoding(t: Tree): Bytes {
    match t
    case Leaf(n) => [0] + Unary(n)
    case Fork(left, right) => [1] + (Encoding(left) + Encoding(right))
  }

  lemma {:induction false} UnaryEnds(a: nat, b: nat, x: Bytes, y: Bytes)
    requires Unary(a) + x == Unary(b) + y
    ensures a == b && x == y
  {
    assert (Unary(a) + x)[0] == (Unary(b) + y)[0];
    if a > 0 && b > 0 {
      assert Unary(a) + x == [1] + (Unary(a - 1) + x) && Unary(b) + y == [1] + (Unary(b - 1) + y);
      assert Unary(a - 1) + x == (Unary(a) + x)[1..];
      UnaryEnds(a - 1, b - 1, x, y);
    } else {
      assert x == (Unary(a) + x)[1..] && y == (Unary(b) + y)[1..];
    }
  }

  /** No encoding is the beginning of another one. */
  lemma {:induction false} EncodingEnds(a: Tree, b: Tree, x: Bytes, y: Bytes)
    requires Encoding(a) + x == Encoding(b) + y
    ensures a == b && x == y
  {
    assert (Encoding(a) + x)[0] == (Encoding(b) + y)[0];
    match (a, b)
    case (Leaf(n), Leaf(k)) =>
      After(a, 0, Unary(n), x);
      After(b, 0, Unary(k), y);
      UnaryEnds(n, k, x, y);
    case (Fork(l, r), Fork(l', r')) =>
      After(a, 1, Encoding(l) + Encoding(r), x);
      After(b, 1, Encoding(l') + Encoding(r'), y);
      Regroup(Encoding(l), Encoding(r), x);
      Regroup(Encoding(l'), Encoding(r'), y);
      EncodingEnds(l, l', Encoding(r) + x, Encoding(r') + y);
      EncodingEnds(r, r', x, y);
    case _ =>
  }

  /** What follows the tag of an encoding. */
  lemma After(a: Tree, tag: Byte, body: Bytes, x: Bytes)
    requires Encoding(a) == [tag] + body
    ensures (Encoding(a) + x)[1..] == body + x
  {
  }

  lemma Regroup(a: Bytes, b: Bytes, c: Bytes)
    ensures (a + b) + c == a + (b + c)
  {
  }

  // ----- manifests as trees -------------------------------------------------------------------------

  function ListTree<T>(list: seq<T>, tree: T -> Tree): Tree {
    if list == [] then Leaf(0) else Fork(tree(list[0]), ListTree(list[1..], tree))
  }

  lemma {:induction false} ListTreeIsInjective<T(!new)>(a: seq<T>, b: seq<T>, tree: T -> Tree)
    requires forall x, y :: tree(x) == tree(y) ==> x == y
    requires ListTree(a, tree) == ListTree(b, tree)
    ensures a == b
  {
    if a != [] && b != [] {
      ListTreeIsInjective(a[1..], b[1..], tree);
      assert a == [a[0]] + a[1..] && b == [b[0]] + b[1..];
    }
  }

  function CharTree(c: char): Tree { Leaf(c as int) }

  function TextTree(s: string): Tree { ListTree(s, CharTree) }

  lemma TextTreeIsInjective()
    ensures forall a, b :: TextTree(a) == TextTree(b) ==> a == b
  {
    forall a, b | TextTree(a) == TextTree(b) ensures a == b { ListTreeIsInjective(a, b, CharTree); }
  }

  function PathTree(p: Path): Tree { ListTree(p, TextTree) }

  function EntryTree(e: FileEntry): Tree { Fork(PathTree(e.path), Fork(TextTree(e.sha), Leaf(e.size))) }

  lemma EntryTreeIsInjective()
    ensures forall a, b :: EntryTree(a) == EntryTree(b) ==> a == b
  {
    TextTreeIsInjective();
    forall a, b | EntryTree(a) == EntryTree(b) ensures a == b { ListTreeIsInjective(a.path, b.path, TextTree); }
  }

  function MemberTree(m: Member): Tree { Fork(TextTree(m.role), Fork(TextTree(m.sha), Leaf(m.size))) }

  function ArtifactTree(a: BackupArtifact): Tree {
    Fork(Fork(TextTree(a.id), TextTree(a.kind)), Fork(ListTree(a.members, MemberTree), TextTree(a.createdAt)))
  }

  lemma ArtifactTreeIsInjective()
    ensures forall a, b :: ArtifactTree(a) == ArtifactTree(b) ==> a == b
  {
    TextTreeIsInjective();
    forall a, b | ArtifactTree(a) == ArtifactTree(b) ensures a == b {
      ListTreeIsInjective(a.members, b.members, MemberTree);
    }
  }

  function KindTree(k: (string, KindCount)): Tree {
    Fork(TextTree(k.0), Fork(Leaf(k.1.artifacts), Fork(Leaf(k.1.members), Leaf(k.1.bytes))))
  }

  /** The entries of a map, in some order. */
  ghost function EntriesOf(m: map<string, KindCount>): (list: seq<(string, KindCount)>)
    ensures forall k, v :: (k, v) in list <==> k in m && m[k] == v
    decreases |m|
  {
    if m == map[] then [] else
      var k :| k in m;
      [(k, m[k])] + EntriesOf(m - {k})
  }

  lemma EntriesDetermineMap(a: map<string, KindCount>, b: map<string, KindCount>)
    requires EntriesOf(a) == EntriesOf(b)
    ensures a == b
  {
    forall k | k in a ensures k in b && b[k] == a[k] { assert (k, a[k]) in EntriesOf(b); }
    forall k | k in b ensures k in a { assert (k, b[k]) in EntriesOf(a); }
  }

  ghost function CountsTree(c: Counts): Tree {
    Fork(Fork(Leaf(c.blobs), Leaf(c.artifacts)), Fork(Fork(Leaf(c.snapshots), Leaf(c.blobBytes)), ListTree(EntriesOf(c.byKind), KindTree)))
  }

  lemma CountsTreeIsInjective(a: Counts, b: Counts)
    requires CountsTree(a) == CountsTree(b)
    ensures a == b
  {
    TextTreeIsInjective();
    ListTreeIsInjective(EntriesOf(a.byKind), EntriesOf(b.byKind), KindTree);
    EntriesDetermineMap(a.byKind, b.byKind);
  }

  ghost function ManifestTree(m: Manifest): Tree {
    Fork(Fork(Fork(TextTree(m.batchId), TextTree(m.createdAt)), Fork(TextTree(m.revision), EntryTree(m.database))),
         Fork(Fork(ListTree(m.blobs, EntryTree), ListTree(m.artifacts, ArtifactTree)),
              Fork(ListTree(m.snapshots, TextTree), CountsTree(m.counts))))
  }

  ghost function ManifestBytes(m: Manifest): Bytes { Encoding(ManifestTree(m)) }

  /** Two manifests never have the same bytes. */
  lemma ManifestBytesAreInjective(a: Manifest, b: Manifest)
    requires ManifestBytes(a) == ManifestBytes(b)
    ensures a == b
  {
    assert ManifestBytes(a) + [] == ManifestBytes(b) + [];
    EncodingEnds(ManifestTree(a), ManifestTree(b), [], []);
    SameManifest(a, b);
  }

  lemma SameManifest(a: Manifest, b: Manifest)
    requires ManifestTree(a) == ManifestTree(b)
    ensures a == b
  {
    TextTreeIsInjective();
    EntryTreeIsInjective();
    ArtifactTreeIsInjective();
    ListTreeIsInjective(a.blobs, b.blobs, EntryTree);
    ListTreeIsInjective(a.artifacts, b.artifacts, ArtifactTree);
    ListTreeIsInjective(a.snapshots, b.snapshots, TextTree);
    CountsTreeIsInjective(a.counts, b.counts);
  }

  // ----- a faithful codec ---------------------------------------------------------------------------

  ghost predicate EncodesTo(m: Manifest, bytes: Bytes) {
    Structured(m) && ManifestBytes(m) == bytes
  }

  ghost function Decoded(bytes: Bytes): Option<Manifest> {
    if exists m :: EncodesTo(m, bytes) then
      var m :| EncodesTo(m, bytes);
      Some(m)
    else None
  }

  function Hex(bytes: Bytes): string {
    seq(|bytes|, i requires 0 <= i < |bytes| => bytes[i] as char)
  }

  const EMPTY_DATABASE := DatabaseFile(true, true, DATABASE_REVISION, map[], map[], {}, true)

  /** Every database file is an empty one of the present revision. */
  ghost function WitnessCodec(): Codec {
    Codec(m => ManifestBytes(m), bytes => Decoded(bytes), Hex, _ => Some(EMPTY_DATABASE), (_, _) => true)
  }

  lemma HexIsInjective(a: Bytes, b: Bytes)
    requires Hex(a) == Hex(b)
    ensures a == b
  {
    assert |Hex(a)| == |a| && |Hex(b)| == |b|;
    forall i | 0 <= i < |a| ensures a[i] == b[i] { assert Hex(a)[i] == Hex(b)[i]; }
  }

  lemma DecodesWhatIsEncoded(m: Manifest)
    requires Structured(m)
    ensures Decoded(ManifestBytes(m)) == Some(m)
  {
    hide Structured;
    hide ManifestBytes;
    assert EncodesTo(m, ManifestBytes(m));
    var n := Decoded(ManifestBytes(m)).value;
    ManifestBytesAreInjective(m, n);
  }

  lemma FaithfulCodecsExist()
    ensures WitnessCodec().Faithful()
  {
    hide ManifestBytes;
    hide Structured;
    hide Hex;
    var codec := WitnessCodec();
    forall m | Structured(m) ensures codec.decode(codec.encode(m)) == Some(m) { DecodesWhatIsEncoded(m); }
    forall a, b | codec.hex(a) == codec.hex(b) ensures a == b { HexIsInjective(a, b); }
  }

  // ----- a batch whose modes are not those of a copy ------------------------------------------------

  const WORLD_READABLE := Mode(6, 4, 4)

  const WITNESS := Manifest("20240101T000000Z-00000000", "2024-01-01T00:00:00Z", DATABASE_REVISION,
                            FileEntry([DATABASE_FILE], "", 0), [], [], [], Counts(0, 0, 0, 0, map[]))

  ghost function WitnessTree(database: Mode): Nodes {
    map[[] := Directory(OWNER_ALL), [DATABASE_FILE] := File([], database),
        [MANIFEST_FILE] := File(ManifestBytes(WITNESS), OWNER_WRITE)]
  }

  lemma WitnessIsStructured()
    ensures Structured(WITNESS)
  {
    assert BatchId(WITNESS.batchId);
  }

  lemma NothingIsRegistered(blobs: map<string, Bytes>)
    ensures DatabaseAgrees(WitnessCodec(), [], blobs, WITNESS)
  {
    hide ManifestBytes;
    hide Structured;
    assert MemberShas(EMPTY_DATABASE) == {};
    assert Registers(EMPTY_DATABASE, [], [], []);
    assert WITNESS.counts == CountsFor([], [], []);
  }

  lemma ExpectedOfWitness(p: Path)
    ensures Expected(WITNESS, p) <==> p in {[DATABASE_FILE], [MANIFEST_FILE]}
  {
  }

  lemma WitnessIsVerified(database: Mode)
    ensures Structured(WITNESS) && Verified(WitnessCodec(), WitnessTree(database), WITNESS)
  {
    hide ManifestBytes;
    hide DatabaseAgrees;
    hide Expected;
    hide Structured;
    hide BlobsIn;
    var tree := WitnessTree(database);
    WitnessIsStructured();
    NothingIsRegistered(BlobsIn(tree, WITNESS));
    forall p ensures p in tree && p != [] <==> Expected(WITNESS, p) { ExpectedOfWitness(p); }
    assert Holds(WitnessCodec(), tree, WITNESS.database) by { assert Hex([]) == ""; }
    NamesDiffer();
  }

  lemma NamesDiffer()
    ensures DATABASE_FILE != MANIFEST_FILE
  {
    assert DATABASE_FILE[0] != MANIFEST_FILE[0];
  }

  lemma WitnessIsWellModed()
    ensures WellModed(WitnessTree(OWNER_WRITE)) && PrivateTree(WitnessTree(OWNER_WRITE))
  {
    hide ManifestBytes;
    NamesDiffer();
  }

  lemma WitnessIsCopied(database: Mode)
    ensures Copies(WitnessCodec(), WitnessTree(database), WitnessTree(OWNER_WRITE), WITNESS)
  {
    hide ManifestBytes;
    hide Expected;
    hide WellModed;
    hide PrivateTree;
    NamesDiffer();
    WitnessIsWellModed();
    var source, copy := WitnessTree(database), WitnessTree(OWNER_WRITE);
    assert copy.Keys == source.Keys;
    forall p ensures p in copy && p != [] <==> Expected(WITNESS, p) { ExpectedOfWitness(p); }
  }

  /**
   * A batch whose database anybody may read is accepted, but its copy is another tree: there the database is closed
   * to others. That copy is a tree as a backup publishes it.
   */
  lemma OpenBatchIsAccepted()
    ensures WitnessCodec().Faithful() && Structured(WITNESS)
    ensures Verified(WitnessCodec(), WitnessTree(WORLD_READABLE), WITNESS)
    ensures Copies(WitnessCodec(), WitnessTree(WORLD_READABLE), WitnessTree(OWNER_WRITE), WITNESS)
    ensures WitnessTree(WORLD_READABLE) != WitnessTree(OWNER_WRITE)
    ensures AsPublished(WitnessCodec(), WitnessTree(OWNER_WRITE), WITNESS)
  {
    hide ManifestBytes;
    hide Structured;
    hide Verified;
    hide Copies;
    hide WellModed;
    FaithfulCodecsExist();
    WitnessIsVerified(WORLD_READABLE);
    WitnessIsVerified(OWNER_WRITE);
    WitnessIsCopied(WORLD_READABLE);
    WitnessIsWellModed();
    NamesDiffer();
    assert [DATABASE_FILE] in WitnessTree(WORLD_READABLE);
    assert WitnessTree(WORLD_READABLE)[[DATABASE_FILE]].mode != WitnessTree(OWNER_WRITE)[[DATABASE_FILE]].mode;
  }
}
