/** Encoded chunk payloads behind a codec. */
module ChunkStores {
  import opened Amplitudes
  import opened Options

  /** A chunk codec; payloads of type `P` are opaque to everything else. */
  datatype Codec<!P> = Codec(encode: Vec -> P, decode: (P, nat) -> Vec) {
    /** Decoding an encoded chunk gives the chunk back. */
    ghost predicate Lossless() {
      forall xs: Vec :: decode(encode(xs), |xs|) == xs
    }
  }

  /** The backend's `chunks_`: one width (in amplitudes) and one payload per chunk, `None` while it is still empty. */
  class ChunkStore<P> {
    const codec: Codec<P>
    var payloads: seq<Option<P>>
    var counts: seq<nat>

    ghost predicate Sized()
      reads this
    {
      codec.Lossless() && |payloads| == |counts|
    }

    /** Every chunk has a payload of its width. */
    ghost predicate Valid()
      reads this
    {
      && Sized()
      && forall c | 0 <= c < |counts| :: payloads[c].Some? && |codec.decode(payloads[c].value, counts[c])| == counts[c]
    }

    /** What the payloads decode to, chunk by chunk. */
    ghost function Decoded(): (d: seq<Vec>)
      requires |payloads| == |counts|
      reads this
      ensures |d| == |counts|
    {
      seq(|counts|, c requires 0 <= c < |counts| && |payloads| == |counts| reads this =>
        if payloads[c].Some? then codec.decode(payloads[c].value, counts[c]) else [])
    }

    /** Chunk `c` is encoded and decodes to `chunk`. */
    ghost predicate Holds(c: nat, chunk: Vec)
      reads this
    {
      c < |payloads| == |counts| && payloads[c].Some? && codec.decode(payloads[c].value, counts[c]) == chunk
    }

    lemma AllHeld(chunks: seq<Vec>)
      requires Sized() && |chunks| == |counts|
      requires forall c | 0 <= c < |chunks| :: Holds(c, chunks[c]) && |chunks[c]| == counts[c]
      ensures Valid() && Decoded() == chunks
    {
      forall c | 0 <= c < |counts|
        ensures payloads[c].Some? && Decoded()[c] == chunks[c] && |Decoded()[c]| == counts[c]
      {
        assert Holds(c, chunks[c]);
      }
    }

    constructor (codec: Codec<P>)
      requires codec.Lossless()
      ensures Sized() && counts == [] && this.codec == codec
    {
      this.codec := codec;
      payloads, counts := [], [];
    }

    /** Fresh chunks of the given widths, without payloads. */
    method Configure(widths: seq<nat>)
      requires Sized()
      modifies this
      ensures Sized() && counts == widths && forall c | 0 <= c < |payloads| :: payloads[c].None?
    {
      payloads, counts := seq(|widths|, _ => None), widths;
    }

    /** Decodes a chunk; a width that is not the recorded one and an empty payload are errors. */
    method LoadChunk(c: nat, count: nat) returns (buffer: Option<Vec>)
      requires Sized() && c < |counts|
      ensures buffer == if count == counts[c] && payloads[c].Some? then Some(Decoded()[c]) else None
      ensures Valid() && buffer.Some? ==> |buffer.value| == count
    {
      if count != counts[c] || payloads[c].None? { return None; }
      buffer := Some(codec.decode(payloads[c].value, count));
    }

    /** Encodes a chunk; a width that is not the recorded one is an error. */
    method StoreChunk(c: nat, buffer: Vec, count: nat) returns (ok: bool)
      requires Sized() && c < |counts| && count == |buffer|
      modifies this`payloads
      ensures Sized() && ok == (count == counts[c])
      ensures payloads == if ok then old(payloads)[c := Some(codec.encode(buffer))] else old(payloads)
      ensures ok ==> Holds(c, buffer)
      ensures ok && old(Valid()) ==> Valid() && Decoded() == old(Decoded())[c := buffer]
    {
      if count != counts[c] { return false; }
      payloads := payloads[c := Some(codec.encode(buffer))];
      ok := true;
    }
  }
}
