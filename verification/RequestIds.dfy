/** Request ids: a search generation and a result kind packed into one 64-bit word. */
module RequestIds {
  datatype SearchKind = Track | Album | Artist | Playlist

  const GROUP_ORDER := [Track, Album, Artist, Playlist]

  function IndexOf(kind: SearchKind): (k: nat)
    ensures k < 4 && GROUP_ORDER[k] == kind
  {
    match kind
    case Track => 0
    case Album => 1
    case Artist => 2
    case Playlist => 3
  }

  /** `generation << 8 | kind` in 64 bits: the generation's top byte is shifted out. */
  function Pack(generation: nat, kind: nat): (id: nat)
    requires kind < 256
    ensures id < 0x1_0000_0000_0000_0000
  {
    generation * 256 % 0x1_0000_0000_0000_0000 + kind
  }

  function Generation(id: nat): nat { id / 256 }

  function KindByte(id: nat): nat { id % 256 }

  /** Unpacking undoes packing, kind always, generation exactly while it fits in 56 bits. */
  lemma PackRoundTrip(generation: nat, kind: nat)
    requires kind < 256
    ensures KindByte(Pack(generation, kind)) == kind
    ensures Generation(Pack(generation, kind)) == generation <==> generation < 0x100_0000_0000_0000
  {
    var q := generation * 256 / 0x1_0000_0000_0000_0000;
    assert Pack(generation, kind) == (generation - q * 0x100_0000_0000_0000) * 256 + kind;
    assert generation < 0x100_0000_0000_0000 <==> q == 0;
  }

  /** Ids of different kinds never collide, whatever the generations. */
  lemma KindsNeverCollide(g: nat, g': nat, kind: nat, kind': nat)
    requires kind < 256 && kind' < 256 && Pack(g, kind) == Pack(g', kind')
    ensures kind == kind'
  {
    PackRoundTrip(g, kind);
    PackRoundTrip(g', kind');
  }
}
