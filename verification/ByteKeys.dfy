/** The GPT-2 byte table of `kimi_k3_tokenizer.py` and the vocabulary keys it produces. */
module ByteKeys {
  import opened Common

  /** Bytes that stand for themselves. */
  predicate Printable(b: int) {
    33 <= b < 127 || 161 <= b < 173 || 174 <= b < 256
  }

  /** How many of the first `b` bytes are lifted out of the way. */
  function LiftedBelow(b: nat): (n: nat)
    ensures n <= b
  {
    if b == 0 then 0 else LiftedBelow(b - 1) + if Printable(b - 1) then 0 else 1
  }

  function CodePoint(b: Byte): nat {
    if Printable(b) then b else 256 + LiftedBelow(b)
  }

  lemma {:induction false} LiftedIncreasing(a: nat, b: nat)
    requires a < b && !Printable(a)
    ensures LiftedBelow(a) < LiftedBelow(b)
  {
    if a < b - 1 {
      LiftedIncreasing(a, b - 1);
    }
  }

  /** Two different bytes never share a code point, and every code point is a plain character. */
  lemma CodePointInjective(a: Byte, b: Byte)
    requires CodePoint(a) == CodePoint(b)
    ensures a == b
  {
    if a < b && !Printable(a) {
      LiftedIncreasing(a, b);
    } else if b < a && !Printable(b) {
      LiftedIncreasing(b, a);
    }
  }

  /** '!' to '~', and from 161 on all but 173. */
  predicate OwnCharacter(b: int) { (33 <= b && b <= 126) || (161 <= b && b <= 255 && b != 173) }

  /** The bytes that are characters of their own keep their number; the others follow from 256 on, in order. */
  lemma CodePointIs(b: Byte)
    ensures OwnCharacter(b) ==> CodePoint(b) == b
    ensures !OwnCharacter(b) ==> CodePoint(b) == 256 + |set c: nat | c < b && !OwnCharacter(c)|
  {
    LiftedCounts(b);
  }

  lemma {:induction false} LiftedCounts(b: nat)
    requires b <= 256
    ensures LiftedBelow(b) == |set c: nat | c < b && !OwnCharacter(c)|
  {
    if b > 0 {
      LiftedCounts(b - 1);
      var before, all := set c: nat | c < b - 1 && !OwnCharacter(c), set c: nat | c < b && !OwnCharacter(c);
      assert all == before + if OwnCharacter(b - 1) then {} else {b - 1};
    }
  }

  function KeyChar(b: Byte): char {
    assert CodePoint(b) < 512;
    CodePoint(b) as char
  }

  lemma KeyCharInjective(a: Byte, b: Byte)
    requires KeyChar(a) == KeyChar(b)
    ensures a == b
  {
    assert (KeyChar(a) as int) == CodePoint(a) && (KeyChar(b) as int) == CodePoint(b);
    CodePointInjective(a, b);
  }

  function EncKey(token: seq<Byte>): string {
    seq(|token|, i requires 0 <= i < |token| => KeyChar(token[i]))
  }

  lemma EncKeyInjective(s: seq<Byte>, t: seq<Byte>)
    requires EncKey(s) == EncKey(t)
    ensures s == t
  {
    assert |s| == |EncKey(s)| == |t|;
    forall i | 0 <= i < |s|
      ensures s[i] == t[i]
    {
      assert EncKey(s)[i] == KeyChar(s[i]) && EncKey(t)[i] == KeyChar(t[i]);
      KeyCharInjective(s[i], t[i]);
    }
  }

  lemma EncKeyConcat(s: seq<Byte>, t: seq<Byte>)
    ensures EncKey(s + t) == EncKey(s) + EncKey(t)
  {
  }

  function Range(lo: nat, hi: nat): (r: seq<nat>)
    requires lo <= hi
    ensures |r| == hi - lo && forall i :: 0 <= i < |r| ==> r[i] == lo + i
  {
    seq(hi - lo, i requires 0 <= i => lo + i)
  }

  lemma PrintableListed(bs: seq<nat>, b: nat)
    requires bs == Range(33, 127) + Range(161, 173) + Range(174, 256)
    ensures Printable(b) <==> b in bs
  {
    if Printable(b) {
      var k := if b < 127 then b - 33 else if b < 173 then 94 + b - 161 else 106 + b - 174;
      assert bs[k] == b;
    }
  }

  lemma PrintableFirst(bs: seq<nat>)
    requires bs == Range(33, 127) + Range(161, 173) + Range(174, 256)
    ensures forall b: nat :: b in bs <==> Printable(b)
    ensures forall k :: 0 <= k < |bs| ==> bs[k] < 256 && CodePoint(bs[k]) == bs[k]
  {
    forall b: nat
      ensures Printable(b) <==> b in bs
    {
      PrintableListed(bs, b);
    }
    forall k | 0 <= k < |bs|
      ensures bs[k] < 256 && CodePoint(bs[k]) == bs[k]
    {
      assert bs[k] in bs;
    }
  }

  /** The two parallel lists: printable bytes first, then the others in order. */
  method TableLists() returns (bs: seq<nat>, cs: seq<nat>)
    ensures |bs| == |cs|
    ensures forall k :: 0 <= k < |bs| ==> bs[k] < 256 && cs[k] == CodePoint(bs[k])
    ensures forall b: Byte :: b in bs
  {
    bs := Range(33, 127) + Range(161, 173) + Range(174, 256);
    cs := bs;
    var n := 0;
    PrintableFirst(bs);
    for b := 0 to 256
      invariant |bs| == |cs| && n == LiftedBelow(b)
      invariant forall x: nat :: x in bs <==> x < 256 && (Printable(x) || x < b)
      invariant forall k :: 0 <= k < |bs| ==> bs[k] < 256 && cs[k] == CodePoint(bs[k])
    {
      if b !in bs {
        bs := bs + [b];
        cs := cs + [256 + n];
        n := n + 1;
      }
    }
  }

  method ByteToUnicode() returns (table: map<Byte, char>)
    ensures forall b: Byte :: b in table && table[b] == KeyChar(b)
    ensures forall a: Byte, b: Byte :: table[a] == table[b] ==> a == b
  {
    var bs, cs := TableLists();
    table := map[];
    for k := 0 to |bs|
      invariant forall i :: 0 <= i < k ==> bs[i] in table
      invariant forall b: Byte :: b in table ==> table[b] == KeyChar(b)
    {
      table := table[bs[k] := cs[k] as char];
    }
    forall b: Byte
      ensures b in table
    {
      assert b in bs;
    }
    forall a: Byte, b: Byte | table[a] == table[b]
      ensures a == b
    {
      KeyCharInjective(a, b);
    }
  }
}
