/** Xoodyak byte by byte: which bit of which port reaches which bit of the
    state, and the other way round, with padding and domain. */
module XoodyakBytes {
  import opened Bits
  import opened Clocked
  import opened Xoodoo
  import opened XoodooEngine
  import opened Xoodyak

  /** Bit `b` of byte `j` of a 128-bit port, counted from its top. */
  predicate PortBit(q: Quad, j: nat, b: nat)
    requires j < 16 && b < 8
  {
    q[j / 4][24 - 8 * (j % 4) + b]
  }

  /** Bit `b` of byte `j` of the state. */
  predicate StateBit(s: State, j: nat, b: nat)
    requires j < 48 && b < 8
  {
    s[j / 4][8 * (j % 4) + b]
  }

  // ---- words ---------------------------------------------------------------------------

  lemma SwappedBit(w: Word, m: nat, b: nat)
    requires m < 4 && b < 8
    ensures ByteSwap(w)[8 * m + b] == w[24 - 8 * m + b]
  {
  }

  lemma XorWordBit(s: State, i: nat, w: Word, j: nat, b: nat)
    requires i < 12 && j < 48 && b < 8
    ensures StateBit(XorWord(s, i, w), j, b) == (StateBit(s, j, b) != (j / 4 == i && w[8 * (j % 4) + b]))
  {
  }

  /** Words are added at their place with the port's first byte lowest. */
  lemma {:induction false} AbsorbBit(s: State, q: Quad, n: nat, at: nat, j: nat, b: nat)
    requires n <= 4 && at + n <= 12 && j < 48 && b < 8
    ensures StateBit(Absorb(s, q, n, at), j, b)
         == (StateBit(s, j, b) != (4 * at <= j < 4 * (at + n) && PortBit(q, j - 4 * at, b)))
  {
    if n > 0 {
      AbsorbBit(s, q, n - 1, at, j, b);
      var i := at + n - 1;
      XorWordBit(Absorb(s, q, n - 1, at), i, GetWord(q, n - 1), j, b);
      if j / 4 == i {
        SwappedBit(q[n - 1], j % 4, b);
        SamePlace(j, at, n - 1);
      }
    }
  }

  lemma SamePlace(j: nat, at: nat, k: nat)
    requires j / 4 == at + k
    ensures j >= 4 * at && (j - 4 * at) / 4 == k && (j - 4 * at) % 4 == j % 4
  {
  }

  /** Words of the state are replaced by those of the port. */
  lemma {:induction false} ReplaceBit(s: State, q: Quad, n: nat, j: nat, b: nat)
    requires n <= 4 && j < 48 && b < 8
    ensures StateBit(Replace(s, q, n), j, b) == if j < 4 * n then PortBit(q, j, b) else StateBit(s, j, b)
  {
    if n > 0 {
      ReplaceBit(s, q, n - 1, j, b);
      if j / 4 == n - 1 {
        SwappedBit(q[n - 1], j % 4, b);
      }
    }
  }

  /** Padding inverts the lowest bit of byte `len`; the domain goes to the last four bytes. */
  lemma PadBit(s: State, len: nat, domain: Word, j: nat, b: nat)
    requires len <= 16 && j < 48 && b < 8
    ensures StateBit(PadAt(s, len, domain), j, b)
         == ((StateBit(s, j, b) != (j == len && b == 0)) != (j >= 44 && domain[8 * (j - 44) + b]))
  {
    var t := XorWord(s, len / 4, OneBit(8 * (len % 4)));
    XorWordBit(s, len / 4, OneBit(8 * (len % 4)), j, b);
    XorWordBit(t, 11, domain, j, b);
    PlaceOf(j, len, b);
  }

  lemma PlaceOf(j: nat, len: nat, b: nat)
    requires b < 8
    ensures j / 4 == len / 4 && 8 * (j % 4) + b == 8 * (len % 4) <==> j == len && b == 0
    ensures 44 <= j < 48 ==> j / 4 == 11 && j % 4 == j - 44
  {
  }

  /** The domains, all in the top byte of the last word: 0x02 for a key, 0x01 for
      a hash, 0x83 for associated data, 0x40 for data. */
  lemma DomainBits(k: nat)
    requires k < 32
    ensures DOMAIN_ABSORB_KEY[k] <==> k == 25
    ensures DOMAIN_ABSORB_HASH[k] <==> k == 24
    ensures Xor(DOMAIN_ABSORB, DOMAIN_CRYPT)[k] <==> k == 24 || k == 25 || k == 31
    ensures DOMAIN_SQUEEZE[k] <==> k == 30
    ensures PAD_KEY_NONCE[k] <==> k == 4 || k == 8
    ensures PAD_01[k] <==> k == 0
  {
  }

  // ---- the states that are permuted --------------------------------------------------------

  /** Key in bytes 0 to 15, nonce in 16 to 31, padding 0x10 and 0x01 in 32 and 33,
      domain 0x02 in 47, and nothing else. */
  lemma KeyedBit(key: Quad, nonce: Quad, j: nat, b: nat)
    requires j < 48 && b < 8
    ensures StateBit(Keyed(key, nonce), j, b)
         == if j < 16 then PortBit(key, j, b) else if j < 32 then PortBit(nonce, j - 16, b)
            else (j == 32 && b == 4) || (j == 33 && b == 0) || (j == 47 && b == 1)
  {
    var s := Absorb(ZERO_STATE, key, 4, 0);
    var t := Absorb(s, nonce, 4, 4);
    AbsorbBit(ZERO_STATE, key, 4, 0, j, b);
    AbsorbBit(s, nonce, 4, 4, j, b);
    XorWordBit(t, 8, PAD_KEY_NONCE, j, b);
    XorWordBit(XorWord(t, 8, PAD_KEY_NONCE), 11, DOMAIN_ABSORB_KEY, j, b);
    DomainBits(8 * (j % 4) + b);
    ZeroBit(j, b);
    Places(j);
  }

  lemma ZeroBit(j: nat, b: nat)
    requires j < 48 && b < 8
    ensures !StateBit(ZERO_STATE, j, b)
  {
  }

  lemma Places(j: nat)
    ensures j / 4 == 8 && j % 4 == 0 <==> j == 32
    ensures j / 4 == 8 && j % 4 == 1 <==> j == 33
    ensures j / 4 == 11 && j % 4 == 3 <==> j == 47
  {
  }

  /** What associated data adds to a state: its bytes, up to the end of the last word,
      a one behind the last valid byte, and domain 0x83. */
  lemma AdInputBit(x: State, ad: Quad, len: nat, j: nat, b: nat)
    requires len <= 16 && j < 48 && b < 8
    ensures StateBit(PadAt(Absorb(x, ad, Words(len), 0), len, Xor(DOMAIN_ABSORB, DOMAIN_CRYPT)), j, b)
         == (((StateBit(x, j, b) != (j < 4 * Words(len) && PortBit(ad, j, b))) != (j == len && b == 0))
             != (j == 47 && (b == 0 || b == 1 || b == 7)))
  {
    AbsorbBit(x, ad, Words(len), 0, j, b);
    PadBit(Absorb(x, ad, Words(len), 0), len, Xor(DOMAIN_ABSORB, DOMAIN_CRYPT), j, b);
    if j >= 44 {
      DomainBits(8 * (j - 44) + b);
    }
  }

  /** What data does to a state: its bytes are added, or replace the state's when
      decrypting, then a one behind the last valid byte, and domain 0x40. */
  lemma DataInputBit(decrypt: bool, x: State, data: Quad, len: nat, j: nat, b: nat)
    requires len <= 16 && j < 48 && b < 8
    ensures StateBit(PadAt(DataState(decrypt, x, data, Words(len)), len, DOMAIN_SQUEEZE), j, b)
         == (((if j >= 4 * Words(len) then StateBit(x, j, b) else if decrypt then PortBit(data, j, b)
               else StateBit(x, j, b) != PortBit(data, j, b))
              != (j == len && b == 0)) != (j == 47 && b == 6))
  {
    if decrypt {
      ReplaceBit(x, data, Words(len), j, b);
    } else {
      AbsorbBit(x, data, Words(len), 0, j, b);
    }
    PadBit(DataState(decrypt, x, data, Words(len)), len, DOMAIN_SQUEEZE, j, b);
    if j >= 44 {
      DomainBits(8 * (j - 44) + b);
    }
  }

  /** What a hash starts from: the data's bytes, a one behind the last valid byte, and domain 0x01. */
  lemma HashInputBit(data: Quad, len: nat, j: nat, b: nat)
    requires len <= 16 && j < 48 && b < 8
    ensures StateBit(PadAt(Absorb(ZERO_STATE, data, HashWords(len), 0), len, DOMAIN_ABSORB_HASH), j, b)
         == (((j < 4 * Words(len) && PortBit(data, j, b)) != (j == len && b == 0)) != (j == 47 && b == 0))
  {
    AbsorbBit(ZERO_STATE, data, HashWords(len), 0, j, b);
    PadBit(Absorb(ZERO_STATE, data, HashWords(len), 0), len, DOMAIN_ABSORB_HASH, j, b);
    ZeroBit(j, b);
    if j >= 44 {
      DomainBits(8 * (j - 44) + b);
    }
  }

  // ---- the ports that are driven -----------------------------------------------------------

  /** Tag and digest: byte `j` is byte `j` of the state. */
  lemma SqueezeBit(s: State, j: nat, b: nat)
    requires j < 16 && b < 8
    ensures PortBit(Squeeze(s), j, b) == StateBit(s, j, b)
  {
    var w := s[j / 4];
    SwappedBit(w, 3 - j % 4, b);
    SqueezeWord(s, j / 4);
  }

  lemma SqueezeWord(s: State, k: nat)
    requires k < 4
    ensures Squeeze(s)[k] == ByteSwap(s[k])
  {
  }

  /** Data out: byte `j` is the sum of state byte and data byte, in the words that hold data. */
  lemma DataOutBit(before: Quad, x: State, q: Quad, n: nat, j: nat, b: nat)
    requires n <= 4 && j < 4 * n && b < 8
    ensures PortBit(DataOut(before, x, q, n), j, b) == (StateBit(x, j, b) != PortBit(q, j, b))
  {
    var k, m := j / 4, j % 4;
    DataOutAt(before, x, q, n, k);
    SwappedBit(Xor(x[k], GetWord(q, k)), 3 - m, b);
    SwappedBit(q[k], m, b);
  }

  /** The ports after an operation that is not a hash: in terms of the two states
      squeezed, byte by byte; the tag is checked when decrypting, which is mode 2. */
  lemma OutcomeBits(p: Permutation, i: In, before: Quad, j: nat, b: nat)
    requires i.adLen <= 16 && i.dataLen <= 16 && j < 16 && b < 8
    ensures var x, o := AfterAd(p, i.key, i.nonce, i.ad, i.adLen), Outcome(p, i, before);
      var y := AfterData(p, i.sel == 2, x, i.data, i.dataLen);
      && (j < 4 * Words(i.dataLen) ==> PortBit(o.dataOut, j, b) == (StateBit(x, j, b) != PortBit(i.data, j, b)))
      && PortBit(o.tag, j, b) == StateBit(y, j, b)
      && o.valid == (i.sel != 2 || i.tag == o.tag)
  {
    var x := AfterAd(p, i.key, i.nonce, i.ad, i.adLen);
    if j < 4 * Words(i.dataLen) {
      DataOutBit(before, x, i.data, Words(i.dataLen), j, b);
    }
    SqueezeBit(AfterData(p, i.sel == DECRYPT, x, i.data, i.dataLen), j, b);
  }

  /** The digest: its first half at the tag port are the bytes of the hashed state,
      its second half at the data port those after a further permutation, before
      which the lowest bit of byte 0 is inverted. */
  lemma DigestBits(p: Permutation, data: Quad, len: nat, o: Ports, j: nat, b: nat) returns (x: State, y: State)
    requires len <= 16 && j < 16 && b < 8
    requires o == Ports(true, true, Squeeze(p(XorWord(HashState(p, data, len), 0, PAD_01))), Squeeze(HashState(p, data, len)))
    ensures x == HashState(p, data, len) && PortBit(o.tag, j, b) == StateBit(x, j, b) && PortBit(o.dataOut, j, b) == StateBit(p(y), j, b)
    ensures forall m: nat, c: nat | m < 48 && c < 8 :: StateBit(y, m, c) == (StateBit(x, m, c) != (m == 0 && c == 0))
  {
    x := HashState(p, data, len);
    y := XorWord(x, 0, PAD_01);
    SqueezeBit(x, j, b);
    SqueezeBit(p(y), j, b);
    forall m: nat, c: nat | m < 48 && c < 8
      ensures StateBit(y, m, c) == (StateBit(x, m, c) != (m == 0 && c == 0))
    {
      XorWordBit(x, 0, PAD_01, m, c);
      DomainBits(8 * (m % 4) + c);
      PlaceOf(m, 0, c);
    }
  }

  /** Mode 3 hashes and every other one loads a key; after the last permutation the
      tag is put out in mode 1, and compared as well in the others. */
  lemma Modes(f: Fsm, l: Xoodyak.Latched, valid: bool, i: In)
    requires !i.restart
    ensures f.phase.Waiting? && i.ena ==> NextFsm(f, l, valid, i).phase == if i.sel == 3 then HashLoad else LoadKey
    ensures f.phase.PermData? && valid && !f.start ==> NextFsm(f, l, valid, i).phase == if l.sel == 1 then ExtractTag else VerifyTag
  {
  }

  /** The words that hold `len` bytes: one for every four begun. */
  lemma WordsHold(len: nat)
    ensures 4 * Words(len) >= len && (Words(len) > 0 ==> 4 * (Words(len) - 1) < len)
  {
  }

  /** The permutations of an operation, applied to the states above in turn. */
  lemma Permutations(p: Permutation, key: Quad, nonce: Quad, ad: Quad, adLen: nat, decrypt: bool, x: State, data: Quad, len: nat)
    requires adLen <= 16 && len <= 16
    ensures AfterAd(p, key, nonce, ad, adLen)
         == p(PadAt(Absorb(p(Keyed(key, nonce)), ad, Words(adLen), 0), adLen, Xor(DOMAIN_ABSORB, DOMAIN_CRYPT)))
    ensures AfterData(p, decrypt, x, data, len) == p(PadAt(DataState(decrypt, x, data, Words(len)), len, DOMAIN_SQUEEZE))
    ensures HashState(p, data, len) == p(PadAt(Absorb(ZERO_STATE, data, HashWords(len), 0), len, DOMAIN_ABSORB_HASH))
  {
  }
}
