// The part of a foreign streaming decompressor (zlib's inflate, zstd's
// ZSTD_decompressStream) that the wrappers can observe.  One call is given
// the unconsumed input and an output room, and answers how many input bytes
// it consumed, which bytes it wrote and a status.

module StreamDecoder {
  import opened Common

  /**
   * The observable context of a decoder: every byte it has consumed since it
   * was created or reset, and how many decoded bytes it holds back for lack
   * of output room.  Such a backlog is always finite.
   */
  datatype Context = Context(fed: Bytes, backlog: nat)

  /** A decoder just created or reset. */
  const Fresh: Context := Context([], 0)

  /** One call as the wrapper sees it: the context afterwards and what it reported. */
  datatype Call<S> = Call(next: Context, consumed: nat, output: Bytes, status: S)

  /**
   * Bounds every decoder call respects: it consumes at most the input it
   * was given, and in order; it writes at most the room it was given; and a
   * call that consumes nothing can only deliver bytes it was holding back.
   */
  predicate Respects<S>(ctx: Context, input: Bytes, room: nat, c: Call<S>)
  {
    c.consumed <= |input| && |c.output| <= room &&
    c.next.fed == ctx.fed + input[..c.consumed] &&
    (c.consumed == 0 ==> |c.output| <= ctx.backlog && c.next.backlog == ctx.backlog - |c.output|)
  }

  /** The call consumed input or delivered output. */
  predicate Progress<S>(c: Call<S>)
  {
    c.consumed > 0 || |c.output| > 0
  }

  /** A call on the input left at position `pos` extends what was fed by the next bytes of the whole input. */
  lemma FeedsNextBytes<S>(ctx: Context, whole: Bytes, pos: nat, room: nat, c: Call<S>)
    requires pos <= |whole| && Respects(ctx, whole[pos..], room, c)
    ensures pos + c.consumed <= |whole|
    ensures c.next.fed == ctx.fed + whole[pos..pos + c.consumed]
  {
    assert whole[pos..][..c.consumed] == whole[pos..pos + c.consumed];
  }

  /** Feeding two consecutive slices feeds the slice they make up. */
  lemma FeedsConcat(fed: Bytes, whole: Bytes, i: nat, j: nat, k: nat)
    requires i <= j <= k <= |whole|
    ensures fed + whole[i..j] + whole[j..k] == fed + whole[i..k]
  {
    assert whole[i..j] + whole[j..k] == whole[i..k];
  }
}
