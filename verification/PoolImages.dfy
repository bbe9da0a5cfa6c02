/** The course of a pool as its clients and its heap decide it, without its bytes: what an allocation and
    a free make of the chunks, the free slots and the heap's regions. */
module PoolImages {
  import opened Sizes
  import opened Slots
  import opened Heap

  const CHUNK_BYTES: nat := 24

  /** What stays the same in a pool's course: how its heap answers, by how much it grows, how far its
      slots are apart. */
  datatype Terms = Terms(oracle: Oracle, factor: nat, stride: nat)

  /** The chunks, the free slots in the order they will be vended, and the state of the heap. */
  datatype Image = Image(chunks: seq<Chunk>, free: seq<Slot>, clock: nat, regions: Regions)

  /** Two requests made one after the other. Null is failure of either, and then nothing is kept. */
  ghost function Acquired(oracle: Oracle, t: nat, regions: Regions, bytes: nat, structBytes: nat): (nat, nat, Regions) {
    var base := oracle(t, regions, bytes);
    if base == 0 then (0, t + 1, regions) else
      var addr := oracle(t + 1, regions[base := bytes], structBytes);
      if addr == 0 then (0, t + 2, regions) else (base, t + 2, regions[base := bytes][addr := structBytes])
  }

  ghost predicate Growable(k: Terms, im: Image) {
    k.factor >= 2 && GrowthFits(Total(Counts(im.chunks)), k.factor, k.stride)
  }

  /** grow_pool: nothing but time passes if the growth does not fit or the heap refuses; otherwise the
      slots of one more chunk are the free slots. */
  ghost function GrownImage(k: Terms, im: Image): Image {
    if !Growable(k, im) then im else
      var n := Added(Total(Counts(im.chunks)), k.factor);
      var (base, t, regions) := Acquired(k.oracle, im.clock, im.regions, SlotBytes(n, k.stride), CHUNK_BYTES);
      if base == 0 then im.(clock := t)
      else Image(im.chunks + [Chunk(base, n)], ChunkSlots(|im.chunks|, n), t, regions)
  }

  /** What an allocation pops from. */
  ghost function PrimedImage(k: Terms, im: Image): Image {
    if im.free == [] then GrownImage(k, im) else im
  }

  ghost function PoppedImage(k: Terms, im: Image): Image {
    var r := PrimedImage(k, im);
    if r.free == [] then r else r.(free := r.free[1..])
  }

  /** The address of a slot, null if it is none. */
  ghost function AddressIn(im: Image, stride: nat, s: Slot): nat {
    if IsSlot(im.chunks, s) then Addr(im.chunks, stride, s) else 0
  }

  /** The address an allocation returns. */
  ghost function VendedAddress(k: Terms, im: Image): nat {
    var r := PrimedImage(k, im);
    if r.free == [] then 0 else AddressIn(r, k.stride, r.free[0])
  }

  /** A free of a slot that is out prepends it; any other address, or a slot that is free, changes
      nothing. */
  ghost function PushedImage(k: Terms, im: Image, p: nat): Image {
    if IsSlotAddress(im.chunks, k.stride, p) && SlotAt(im.chunks, k.stride, p) !in im.free
    then im.(free := [SlotAt(im.chunks, k.stride, p)] + im.free) else im
  }
}
