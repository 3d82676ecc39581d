/** The wire format with its bytes written out, and the order of keys. */
module BencodeFormat {
  import opened Common
  import opened Decimal
  import opened Bencode

  /** The bytes of an ASCII string. */
  function Ascii7(s: string): seq<Byte>
    requires forall i :: 0 <= i < |s| ==> s[i] < 128 as char
  {
    seq(|s|, i requires 0 <= i < |s| => s[i] as int)
  }

  /** An integer is its sign and decimal digits between `i` and `e`; a byte string is its length, a colon and
      itself; a list is its items between `l` and `e`, a dictionary its keys and values between `d` and `e`. */
  lemma Format(i: I64, b: seq<Byte>, items: seq<Value>, entries: seq<Entry>)
    ensures Encode(Int(i)) == Ascii7("i") + ShowInt(i) + Ascii7("e")
    ensures Encode(Bytes(b)) == ShowNat(|b|) + Ascii7(":") + b
    ensures Encode(List(items)) == Ascii7("l") + EncodeItems(items) + Ascii7("e")
    ensures Encode(Dict(entries)) == Ascii7("d") + EncodeEntries(entries) + Ascii7("e")
    ensures forall n: int :: n < 0 ==> ShowInt(n) == Ascii7("-") + ShowNat(-n)
  {
    assert Ascii7("i") == [105] && Ascii7("l") == [108] && Ascii7("d") == [100] && Ascii7("e") == [101];
    assert Ascii7(":") == [58] && Ascii7("-") == [45];
  }

  /** A decimal digit is written as its ASCII character. */
  lemma DigitBytes()
    ensures forall d: nat :: d < 10 ==> ShowNat(d) == [Ascii7("0123456789")[d]]
    ensures ShowNat(42) == Ascii7("42")
  {
    assert Digits(4) == [4] && Digits(42) == [4] + [2];
  }

  /** A dictionary of one entry. */
  lemma OneEntry()
    ensures Encode(Dict([Entry(Ascii7("a"), Int(1))])) == Ascii7("d1:ai1ee")
  {
    var e := Entry(Ascii7("a"), Int(1));
    assert [e][1..] == [];
    assert EncodeEntries([e]) == EncodeEntry(e) + [];
    assert ShowNat(1) == [49];
    assert EncodeBytes(Ascii7("a")) == [49, 58, 97];
    assert Encode(Int(1)) == [105, 49, 101];
  }

  /** The two agree on `k` bytes, and then `a` ends or has the smaller byte. */
  predicate FirstDifference(a: seq<Byte>, b: seq<Byte>, k: nat) {
    k <= |a| && k < |b| && (forall i :: 0 <= i < k ==> a[i] == b[i]) && (k == |a| || a[k] < b[k])
  }

  /** Keys are in lexicographic order of their bytes, a prefix first. */
  lemma {:induction false} LessLexicographic(a: seq<Byte>, b: seq<Byte>)
    ensures Less(a, b) <==> exists k: nat :: FirstDifference(a, b, k)
    decreases |a|
  {
    if a != [] && b != [] && a[0] == b[0] {
      LessLexicographic(a[1..], b[1..]);
      if k: nat :| FirstDifference(a[1..], b[1..], k) {
        forall i | 0 <= i < k + 1 ensures a[i] == b[i] {
          assert i > 0 ==> a[1..][i - 1] == b[1..][i - 1];
        }
        assert FirstDifference(a, b, k + 1);
      }
      if k: nat :| FirstDifference(a, b, k) {
        assert FirstDifference(a[1..], b[1..], k - 1);
      }
    } else if Less(a, b) {
      assert FirstDifference(a, b, 0);
    }
  }
}
