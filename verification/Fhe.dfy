/** Slot packing and slotwise arithmetic modulo the plaintext modulus; a ciphertext is the slots it decrypts to. */
module Fhe {
  const T: int := 65537

  type Ciphertext = seq<nat>

  /** How text is cut into terms and digested; both are arbitrary. */
  datatype Lexicon = Lexicon(tokenize: string -> seq<string>, digest: string -> nat)

  /** The residue of the digest modulo T, and hence a plaintext slot's value. */
  function HashTerm(lex: Lexicon, term: string): (h: nat)
    ensures h < T && (lex.digest(term) - h) % T == 0
  {
    lex.digest(term) % T
  }

  /** `values` in the first slots, zeros in the rest; what does not fit is dropped. */
  function Packed(values: seq<nat>, n: nat): (ct: Ciphertext)
    ensures |ct| == n
  {
    seq(n, i requires 0 <= i => if i < |values| then values[i] % T else 0)
  }

  function Replicated(value: nat, n: nat): (ct: Ciphertext)
    ensures |ct| == n
  {
    seq(n, _ => value % T)
  }

  method EncryptTermPage(values: seq<nat>, n: nat) returns (ct: Ciphertext)
    ensures ct == Packed(values, n)
  {
    var slots := new nat[n](_ => 0);
    var i := 0;
    while i < |values| && i < n
      invariant 0 <= i <= |values| && i <= n
      invariant forall k :: 0 <= k < n ==> slots[k] == if k < i then values[k] % T else 0
    {
      slots[i] := values[i] % T;
      i := i + 1;
    }
    ct := slots[..];
  }

  method EncryptSingleTerm(value: nat, n: nat) returns (ct: Ciphertext)
    ensures ct == Replicated(value, n)
  {
    var slots := new nat[n](_ => 0);
    for i := 0 to n
      invariant forall k :: 0 <= k < i ==> slots[k] == value % T
    {
      slots[i] := value % T;
    }
    ct := slots[..];
  }

  /** Slotwise subtraction of `b` from `a`. */
  function EvaluateMatch(a: Ciphertext, b: Ciphertext): (ct: Ciphertext)
    requires |a| == |b|
    ensures |ct| == |a|
  {
    seq(|a|, i requires 0 <= i < |a| => (a[i] - b[i]) % T)
  }

  /** The slots among the first `active` that hold zero. */
  function MatchVector(ct: Ciphertext, active: nat): (m: seq<bool>)
    ensures |m| == active
  {
    seq(active, i requires 0 <= i => i < |ct| && ct[i] == 0)
  }

  method DecryptMatchVector(ct: Ciphertext, active: nat) returns (m: seq<bool>)
    ensures m == MatchVector(ct, active)
  {
    var matches := new bool[active](_ => false);
    var i := 0;
    while i < active && i < |ct|
      invariant 0 <= i <= active && i <= |ct|
      invariant forall k :: 0 <= k < active ==> matches[k] == (k < i && ct[k] == 0)
    {
      matches[i] := ct[i] == 0;
      i := i + 1;
    }
    m := matches[..];
  }

  /**
   Matching a replicated hash against a packed page marks exactly the active slots that hold that hash; a zero
   difference modulo T means equality because both hashes are below T.
   */
  lemma MatchIsEquality(h: nat, hashes: seq<nat>, n: nat)
    requires h < T && |hashes| <= n && forall i :: 0 <= i < |hashes| ==> hashes[i] < T
    ensures var m := MatchVector(EvaluateMatch(Replicated(h, n), Packed(hashes, n)), |hashes|);
      forall i :: 0 <= i < |hashes| ==> m[i] == (hashes[i] == h)
  {
    forall i | 0 <= i < |hashes|
      ensures ((h % T - hashes[i] % T) % T == 0) == (hashes[i] == h)
    {
      ZeroDifference(h, hashes[i]);
    }
  }

  lemma ZeroDifference(a: nat, b: nat)
    requires a < T && b < T
    ensures (a % T - b % T) % T == 0 <==> a == b
  {
  }
}
