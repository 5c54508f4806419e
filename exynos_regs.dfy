/**
 * 32-bit register words and the memory-mapped register file of an Exynos
 * pin controller.
 *
 * A word is the sequence of its 32 bits, bit i at index i, so that the C
 * idioms `w | (1 << k)`, `w & ~(m << s)` and `(w >> s) & m` become
 * position-wise definitions and field reasoning is index arithmetic.
 */
module ExynosRegs {

  type Word = w: seq<bool> | |w| == 32 witness ZeroBits()

  /** Thirty-two clear bits. */
  function ZeroBits(): (r: seq<bool>)
    ensures |r| == 32
  {
    seq(32, _ => false)
  }

  /** The register file: offset from the controller's base -> value. */
  type RegFile = map<nat, Word>

  const Zero: Word := ZeroBits()
  const AllOnes: Word := seq(32, _ => true)

  function Or(a: Word, b: Word): Word { seq(32, i requires 0 <= i < 32 => a[i] || b[i]) }
  function And(a: Word, b: Word): Word { seq(32, i requires 0 <= i < 32 => a[i] && b[i]) }
  function Not(a: Word): Word { seq(32, i requires 0 <= i < 32 => !a[i]) }

  /** `a << n`, bits shifted out at the top are lost. */
  function Shl(a: Word, n: nat): Word
    requires n < 32
  {
    seq(32, i requires 0 <= i < 32 => i >= n && a[i - n])
  }

  /** `a >> n` on an unsigned word. */
  function Shr(a: Word, n: nat): Word
    requires n < 32
  {
    seq(32, i requires 0 <= i < 32 => i + n < 32 && a[i + n])
  }

  /** `1 << k`. */
  function BitWord(k: nat): Word
    requires k < 32
  {
    seq(32, i requires 0 <= i < 32 => i == k)
  }

  /** `(1 << len) - 1`: the mask of a `len`-bit field. */
  function LowOnes(len: nat): Word
  {
    seq(32, i requires 0 <= i < 32 => i < len)
  }

  /** The value `v` needs no more than `len` bits. */
  predicate Fits(v: Word, len: nat)
  {
    forall i :: len <= i < 32 ==> !v[i]
  }

  /** `(w & ~(mask << shift)) | (v << shift)`: the read-modify-write of one field. */
  function ReplaceField(w: Word, shift: nat, mask: Word, v: Word): Word
    requires shift < 32
  {
    Or(And(w, Not(Shl(mask, shift))), Shl(v, shift))
  }

  /** `(w >> shift) & mask`: reading one field back. */
  function FieldAt(w: Word, shift: nat, mask: Word): Word
    requires shift < 32
  {
    And(Shr(w, shift), mask)
  }

  /** Unsigned value of a bit sequence, least significant bit first. */
  function ToNat(bits: seq<bool>): nat
  {
    if bits == [] then 0 else (if bits[0] then 1 else 0) + 2 * ToNat(bits[1..])
  }

  /** `readl`: a location never written reads as zero. */
  function Read(regs: RegFile, off: nat): Word
  {
    if off in regs then regs[off] else Zero
  }

  /** Setting bit k sets exactly that bit; the others keep their values. */
  lemma SetBitEffect(w: Word, k: nat)
    requires k < 32
    ensures Or(w, BitWord(k))[k]
    ensures forall i :: 0 <= i < 32 && i != k ==> Or(w, BitWord(k))[i] == w[i]
  {
  }

  /** Clearing bit k clears exactly that bit; the others keep their values. */
  lemma ClearBitEffect(w: Word, k: nat)
    requires k < 32
    ensures !And(w, Not(BitWord(k)))[k]
    ensures forall i :: 0 <= i < 32 && i != k ==> And(w, Not(BitWord(k)))[i] == w[i]
  {
  }

  /** Clearing a bit after setting it gives back a word with that bit clear and the rest untouched. */
  lemma SetThenClear(w: Word, k: nat)
    requires k < 32 && !w[k]
    ensures And(Or(w, BitWord(k)), Not(BitWord(k))) == w
  {
  }

  /** A field written with a value that fits its width reads back as that value. */
  lemma FieldReadback(w: Word, shift: nat, len: nat, v: Word)
    requires shift < 32 && 1 <= len && shift + len <= 32 && Fits(v, len)
    ensures FieldAt(ReplaceField(w, shift, LowOnes(len), v), shift, LowOnes(len)) == v
  {
  }

  /** Writing one field leaves every bit outside it unchanged. */
  lemma FieldFrame(w: Word, shift: nat, len: nat, v: Word)
    requires shift < 32 && shift + len <= 32 && Fits(v, len)
    ensures forall i :: 0 <= i < 32 && !(shift <= i < shift + len) ==>
      ReplaceField(w, shift, LowOnes(len), v)[i] == w[i]
  {
  }

  /** Writing one field does not change a disjoint field of the same width. */
  lemma OtherField(w: Word, s1: nat, s2: nat, len: nat, v: Word)
    requires s1 < 32 && s2 < 32 && s1 + len <= 32 && s2 + len <= 32
    requires s1 + len <= s2 || s2 + len <= s1
    requires Fits(v, len)
    ensures FieldAt(ReplaceField(w, s2, LowOnes(len), v), s1, LowOnes(len)) == FieldAt(w, s1, LowOnes(len))
  {
  }

  /** Multiplication by a natural number is monotone. */
  lemma MulMono(a: nat, b: nat, k: nat)
    requires a <= b
    ensures a * k <= b * k
  {
  }

  /** `(a + 1) * k == a * k + k`. */
  lemma MulSucc(a: nat, k: nat)
    ensures (a + 1) * k == a * k + k
  {
  }
}
