/** Older history does no harm: a block that decodes with some output before it decodes alike with more. */
module OlderHistory {
  import opened Bits
  import opened Deflate
  import opened BlockDecoding

  lemma {:induction false} CopyMore(pre: seq<byte>, out: seq<byte>, len: nat, dist: nat)
    requires 1 <= dist <= |out|
    ensures Copy(pre + out, len, dist) == pre + Copy(out, len, dist)
    decreases len
  {
    if len > 0 {
      var c := [out[|out| - dist]];
      assert pre + out + c == pre + (out + c);
      CopyMore(pre, out + c, len - 1, dist);
    }
  }

  /** The output with the older history before it. */
  ghost function After(pre: seq<byte>, r: Option<Progress>): Option<Progress> {
    match r
    case None => None
    case Some(p) => Some(Progress(pre + p.out, p.pos))
  }

  ghost predicate Same(pre: seq<byte>, r: Option<Progress>, more: Option<Progress>) {
    r.Some? ==> more == After(pre, r)
  }

  lemma {:induction false} BodyMore(pre: seq<byte>, ll: seq<nat>, d: seq<nat>, bits: seq<bool>, pos: nat,
                                    out: seq<byte>)
    ensures Same(pre, Body(ll, d, bits, pos, out), Body(ll, d, bits, pos, pre + out))
    decreases |bits| - pos
  {
    hide Symbol, MatchAt, Copy;
    if Symbol(ll, bits, pos).Some? {
      var s := Symbol(ll, bits, pos).value;
      var p := pos + ll[s];
      if s < 256 {
        assert pre + out + [s] == pre + (out + [s]);
        BodyMore(pre, ll, d, bits, p, out + [s]);
      } else if 256 < s <= 285 && MatchAt(d, s, bits, p).Some? {
        var m := MatchAt(d, s, bits, p).value;
        if 1 <= m.0.dist <= |out| {
          CopyMore(pre, out, m.0.len, m.0.dist);
          BodyMore(pre, ll, d, bits, m.1, Copy(out, m.0.len, m.0.dist));
        }
      }
    }
  }

  lemma {:induction false} BytesMore(pre: seq<byte>, bits: seq<bool>, pos: nat, out: seq<byte>, n: nat)
    ensures Same(pre, StoredBytes(bits, pos, out, n), StoredBytes(bits, pos, pre + out, n))
    decreases n
  {
    hide ByteAt;
    if n > 0 && pos + 8 <= |bits| {
      var c := [ByteAt(bits, pos)];
      assert pre + out + c == pre + (out + c);
      BytesMore(pre, bits, pos + 8, out + c, n - 1);
    }
  }

  lemma BlockMore(pre: seq<byte>, kind: nat, bits: seq<bool>, pos: nat, out: seq<byte>)
    ensures Same(pre, Block(kind, bits, pos, out), Block(kind, bits, pos, pre + out))
  {
    hide StoredBytes, Field, Body, DynamicCodes, StaticLit, StaticDist;
    if kind == 0 {
      forall p: nat, n: nat ensures Same(pre, StoredBytes(bits, p, out, n), StoredBytes(bits, p, pre + out, n)) {
        BytesMore(pre, bits, p, out, n);
      }
    } else if kind == 1 {
      BodyMore(pre, StaticLit(), StaticDist(), bits, pos, out);
    } else if kind == 2 && DynamicCodes(bits, pos).Some? {
      var c := DynamicCodes(bits, pos).value;
      BodyMore(pre, c.ll, c.d, bits, c.pos, out);
    }
  }

  /** A written block stands for the same bytes after more output. */
  lemma BlockIsMore(pre: seq<byte>, before: seq<bool>, after: seq<bool>, out: seq<byte>, out': seq<byte>)
    requires BlockIs(before, after, out, out')
    ensures BlockIs(before, after, pre + out, pre + out')
  {
    hide Block, BitsNat;
    forall s | after <= s ensures BlockAt(s, |before|, pre + out, pre + out', |after|) {
      assert BlockAt(s, |before|, out, out', |after|);
      BlockMore(pre, BitsNat(s[|before|..|before| + 2]), s, |before| + 2, out);
    }
  }
}
