/**
 * Splitting PEM data into its certificates, given what section 2 of RFC 7468
 * asks of an encoder and a decoder.
 */
module Pem {
  import opened Wrappers

  datatype Block = Block(kind: string, headers: map<string, string>, body: string)

  /** `decode` finds the first block and returns what follows it; `encode` may refuse a block. */
  datatype Codec = Codec(decode: string -> Option<(Block, string)>, encode: Block -> Option<string>)

  const CERTIFICATE := "CERTIFICATE"

  /** Decoding consumes input, and a decoded block, once encoded, decodes to itself in front of anything. */
  ghost predicate Lawful(codec: Codec) {
    && (forall s :: codec.decode(s).Some? ==> |codec.decode(s).value.1| < |s|)
    && (forall s, rest :: codec.decode(s).Some? && codec.encode(codec.decode(s).value.0).Some? ==>
          codec.decode(codec.encode(codec.decode(s).value.0).value + rest) == Some((codec.decode(s).value.0, rest)))
  }

  /** The blocks of some data, in order. */
  ghost function Blocks(codec: Codec, data: string): seq<Block>
    requires Lawful(codec)
    decreases |data|
  {
    match codec.decode(data)
    case None => []
    case Some((block, rest)) => [block] + Blocks(codec, rest)
  }

  function Certificates(blocks: seq<Block>): seq<Block> {
    if blocks == [] then []
    else (if blocks[0].kind == CERTIFICATE then [blocks[0]] else []) + Certificates(blocks[1..])
  }

  /** Exactly the blocks of type CERTIFICATE are kept, in order. */
  lemma CertificatesExact(block: Block, blocks: seq<Block>, more: seq<Block>)
    ensures Certificates([]) == []
    ensures Certificates([block]) == if block.kind == "CERTIFICATE" then [block] else []
    ensures Certificates(blocks + more) == Certificates(blocks) + Certificates(more)
  {
    CertificatesConcat(blocks, more);
    CertificatesCons(block, []);
    assert [block] + [] == [block];
  }

  lemma {:induction false} CertificatesConcat(blocks: seq<Block>, more: seq<Block>)
    ensures Certificates(blocks + more) == Certificates(blocks) + Certificates(more)
    decreases |blocks|
  {
    if blocks == [] {
      assert blocks + more == more;
    } else {
      CertificatesConcat(blocks[1..], more);
      CertificatesCons(blocks[0], blocks[1..]);
      CertificatesCons(blocks[0], blocks[1..] + more);
      assert [blocks[0]] + (blocks[1..] + more) == blocks + more;
      assert [blocks[0]] + blocks[1..] == blocks;
    }
  }

  lemma CertificatesCons(block: Block, blocks: seq<Block>)
    ensures Certificates([block] + blocks)
         == (if block.kind == CERTIFICATE then [block] else []) + Certificates(blocks)
  {
    assert ([block] + blocks)[1..] == blocks;
  }

  /** `certs` are the encodings of `blocks`, one by one. */
  ghost predicate Encodes(codec: Codec, blocks: seq<Block>, certs: seq<string>) {
    |certs| == |blocks| && forall i :: 0 <= i < |blocks| ==> codec.encode(blocks[i]) == Some(certs[i])
  }

  ghost predicate SomeRefused(codec: Codec, blocks: seq<Block>) {
    exists i :: 0 <= i < |blocks| && codec.encode(blocks[i]).None?
  }

  /** The loop: its result, if it has collected `certs` and `data` is left. */
  function Split(codec: Codec, data: string, certs: seq<string>): Result<seq<string>, ()>
    requires Lawful(codec)
    decreases |data|
  {
    match codec.decode(data)
    case None => Ok(certs)
    case Some((block, rest)) =>
      if block.kind != CERTIFICATE then Split(codec, rest, certs)
      else
        match codec.encode(block)
        case None => Err(())
        case Some(cert) => Split(codec, rest, certs + [cert])
  }

  /**
   * The result holds the certificates of the data and nothing else, in order, encoded again; it is
   * an error exactly when the encoder refuses one of them.
   */
  lemma {:induction false} SplitIsCertificates(codec: Codec, data: string, done: seq<Block>, certs: seq<string>)
    requires Lawful(codec) && Encodes(codec, done, certs)
    ensures var all, r := done + Certificates(Blocks(codec, data)), Split(codec, data, certs);
            && (r.Ok? ==> Encodes(codec, all, r.value))
            && (r.Err? <==> SomeRefused(codec, all))
    decreases |data|
  {
    if codec.decode(data).Some? {
      var (block, rest) := codec.decode(data).value;
      var later := Certificates(Blocks(codec, rest));
      CertificatesCons(block, Blocks(codec, rest));
      if block.kind != CERTIFICATE {
        assert Certificates(Blocks(codec, data)) == later;
        SplitIsCertificates(codec, rest, done, certs);
      } else {
        assert done + ([block] + later) == (done + [block]) + later;
        if codec.encode(block).None? {
          assert (done + ([block] + later))[|done|] == block;
        } else {
          SplitIsCertificates(codec, rest, done + [block], certs + [codec.encode(block).value]);
        }
      }
    } else {
      assert done + [] == done;
    }
  }

  method SplitPems(codec: Codec, data: string) returns (r: Result<seq<string>, ()>)
    requires Lawful(codec)
    ensures r == Split(codec, data, [])
    ensures r.Ok? ==> Encodes(codec, Certificates(Blocks(codec, data)), r.value)
    ensures r.Err? <==> SomeRefused(codec, Certificates(Blocks(codec, data)))
  {
    var certs := [];
    var certData := data;
    SplitResult(codec, data);
    while true
      invariant Split(codec, data, []) == Split(codec, certData, certs)
      decreases |certData|
    {
      var decoded := codec.decode(certData);
      if decoded.None? {
        break;
      }
      var (block, rest) := decoded.value;
      if block.kind == CERTIFICATE {
        var encoded := codec.encode(block);
        if encoded.None? {
          return Err(());
        }
        certs := certs + [encoded.value];
      }
      certData := rest;
    }
    return Ok(certs);
  }

  function Concat(parts: seq<string>): string {
    if parts == [] then "" else parts[0] + Concat(parts[1..])
  }

  /** Every block of the data came out of the decoder. */
  ghost predicate Decoded(codec: Codec, block: Block) {
    exists s :: codec.decode(s).Some? && codec.decode(s).value.0 == block
  }

  lemma {:induction false} BlocksAreDecoded(codec: Codec, data: string)
    requires Lawful(codec)
    ensures forall b :: b in Certificates(Blocks(codec, data)) ==> Decoded(codec, b) && b.kind == CERTIFICATE
    decreases |data|
  {
    if codec.decode(data).Some? {
      var (block, rest) := codec.decode(data).value;
      BlocksAreDecoded(codec, rest);
      assert Blocks(codec, data)[1..] == Blocks(codec, rest);
      assert Decoded(codec, block);
    }
  }

  /** The encodings of decoded certificates, put together, split into those certificates again. */
  lemma {:induction false} ConcatSplits(codec: Codec, blocks: seq<Block>, certs: seq<string>)
    requires Lawful(codec) && Encodes(codec, blocks, certs)
    requires forall b :: b in blocks ==> Decoded(codec, b) && b.kind == CERTIFICATE
    ensures Blocks(codec, Concat(certs)) == blocks && Certificates(blocks) == blocks
    decreases |blocks|
  {
    if blocks == [] {
      assert codec.decode("").None?;
    } else {
      var b := blocks[0];
      assert b in blocks;
      var s :| codec.decode(s).Some? && codec.decode(s).value.0 == b;
      assert codec.encode(b) == Some(certs[0]);
      assert codec.decode(certs[0] + Concat(certs[1..])) == Some((b, Concat(certs[1..])));
      ConcatSplits(codec, blocks[1..], certs[1..]);
      assert blocks == [b] + blocks[1..];
    }
  }

  lemma SplitResult(codec: Codec, data: string)
    requires Lawful(codec)
    ensures var all, r := Certificates(Blocks(codec, data)), Split(codec, data, []);
            && (r.Ok? ==> Encodes(codec, all, r.value))
            && (r.Err? <==> SomeRefused(codec, all))
  {
    SplitIsCertificates(codec, data, [], []);
    assert [] + Certificates(Blocks(codec, data)) == Certificates(Blocks(codec, data));
  }

  lemma EncodesOnce(codec: Codec, blocks: seq<Block>, a: seq<string>, b: seq<string>)
    requires Encodes(codec, blocks, a) && Encodes(codec, blocks, b)
    ensures a == b
  {
    forall i | 0 <= i < |a| ensures a[i] == b[i] {
      assert codec.encode(blocks[i]) == Some(a[i]);
    }
  }

  /** Splitting is idempotent: the certificates of the concatenated result are the result. */
  lemma SplitIsIdempotent(codec: Codec, data: string, certs: seq<string>)
    requires Lawful(codec) && Split(codec, data, []) == Ok(certs)
    ensures Split(codec, Concat(certs), []) == Ok(certs)
  {
    var blocks := Certificates(Blocks(codec, data));
    SplitResult(codec, data);
    BlocksAreDecoded(codec, data);
    ConcatSplits(codec, blocks, certs);
    SplitResult(codec, Concat(certs));
    EncodesOnce(codec, blocks, certs, Split(codec, Concat(certs), []).value);
  }
}
