/** Fixed-width unsigned words in a byte buffer: reading them in either
    byte order (what `struct` and `array.frombytes` do) and reversing the
    bytes of a word (what `array.byteswap` does). */
module ByteWords {
  import opened Base

  datatype ByteOrder = Little | Big

  function Other(o: ByteOrder): ByteOrder {
    if o == Little then Big else Little
  }

  function Reverse<T>(s: seq<T>): (r: seq<T>)
    ensures |r| == |s|
    ensures forall i :: 0 <= i < |s| ==> r[i] == s[|s| - 1 - i]
  {
    if s == [] then [] else Reverse(s[1..]) + [s[0]]
  }

  lemma ReverseReverse<T>(s: seq<T>)
    ensures Reverse(Reverse(s)) == s
  {
  }

  function Pow256(k: nat): (p: nat)
    ensures p > 0
  {
    if k == 0 then 1 else 256 * Pow256(k - 1)
  }

  /** The unsigned number that a little-endian byte string encodes. */
  function LE(c: seq<byte>): (w: nat)
    ensures w < Pow256(|c|)
  {
    if c == [] then 0 else c[0] as nat + 256 * LE(c[1..])
  }

  /** The unsigned number that `c` encodes in byte order `o`. */
  function Decode(c: seq<byte>, o: ByteOrder): (w: nat)
    ensures w < Pow256(|c|)
  {
    if o == Little then LE(c) else LE(Reverse(c))
  }

  /** The `k` little-endian bytes of `w`. */
  function ToLE(w: nat, k: nat): (c: seq<byte>)
    requires w < Pow256(k)
    ensures |c| == k
  {
    if k == 0 then [] else [(w % 256) as byte] + ToLE(w / 256, k - 1)
  }

  lemma {:induction false} EncodeDecode(c: seq<byte>)
    ensures ToLE(LE(c), |c|) == c
  {
    if c != [] {
      EncodeDecode(c[1..]);
    }
  }

  lemma {:induction false} DecodeEncode(w: nat, k: nat)
    requires w < Pow256(k)
    ensures LE(ToLE(w, k)) == w
  {
    if k > 0 {
      DecodeEncode(w / 256, k - 1);
    }
  }

  /** `array.byteswap` on one item of `k` bytes holding `w`. */
  function SwapWord(w: nat, k: nat): (r: nat)
    requires w < Pow256(k)
    ensures r < Pow256(k)
  {
    LE(Reverse(ToLE(w, k)))
  }

  /** Swapping the bytes of an item twice gives the item back. */
  lemma SwapWordTwice(w: nat, k: nat)
    requires w < Pow256(k)
    ensures SwapWord(SwapWord(w, k), k) == w
  {
    var c := Reverse(ToLE(w, k));
    EncodeDecode(c);
    ReverseReverse(ToLE(w, k));
    DecodeEncode(w, k);
  }

  /** Swapping a word read in one byte order gives the word read in the other. */
  lemma SwapDecode(c: seq<byte>, o: ByteOrder)
    ensures SwapWord(Decode(c, o), |c|) == Decode(c, Other(o))
  {
    if o == Little {
      EncodeDecode(c);
    } else {
      EncodeDecode(Reverse(c));
      ReverseReverse(c);
    }
  }

  predicate Fits(ws: seq<nat>, k: nat) {
    forall i :: 0 <= i < |ws| ==> ws[i] < Pow256(k)
  }

  /** `array(fmt).frombytes(b)` with `k`-byte items, each read in order `o`. */
  function FromBytes(b: seq<byte>, k: nat, o: ByteOrder): (ws: seq<nat>)
    requires k > 0
    ensures Fits(ws, k)
    decreases |b|
  {
    if |b| < k then [] else [Decode(b[..k], o)] + FromBytes(b[k..], k, o)
  }

  /** A buffer of `n` whole items gives `n` words. */
  lemma {:induction false} FromBytesCount(b: seq<byte>, k: nat, o: ByteOrder, n: nat)
    requires k > 0 && |b| == n * k
    ensures |FromBytes(b, k, o)| == n
  {
    if n > 0 {
      assert |b[k..]| == (n - 1) * k;
      FromBytesCount(b[k..], k, o, n - 1);
    }
  }

  /** `array.byteswap()`: every item of `k` bytes swapped. */
  function SwapAll(ws: seq<nat>, k: nat): (r: seq<nat>)
    requires Fits(ws, k)
    ensures |r| == |ws| && Fits(r, k)
    ensures forall i :: 0 <= i < |ws| ==> r[i] == SwapWord(ws[i], k)
  {
    if ws == [] then [] else [SwapWord(ws[0], k)] + SwapAll(ws[1..], k)
  }

  lemma SwapAllTwice(ws: seq<nat>, k: nat)
    requires Fits(ws, k)
    ensures SwapAll(SwapAll(ws, k), k) == ws
  {
    forall i | 0 <= i < |ws| ensures SwapAll(SwapAll(ws, k), k)[i] == ws[i] {
      SwapWordTwice(ws[i], k);
    }
  }

  /** Reading items in one byte order and swapping each gives the items read
      in the other byte order. */
  lemma {:induction false} SwapFromBytes(b: seq<byte>, k: nat, o: ByteOrder)
    requires k > 0
    ensures SwapAll(FromBytes(b, k, o), k) == FromBytes(b, k, Other(o))
    decreases |b|
  {
    if |b| >= k {
      SwapDecode(b[..k], o);
      SwapFromBytes(b[k..], k, o);
    }
  }
}
