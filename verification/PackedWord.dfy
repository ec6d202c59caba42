/** Two 32-bit counters in one 64-bit word, as the datapath's compare-and-swap loops use them. */
module PackedWord {

  const CAS_ATTEMPTS := 8

  function Hi(word: nat): nat {
    word / 0x1_0000_0000
  }

  function Lo(word: nat): (lo: nat)
    ensures lo < 0x1_0000_0000
  {
    word % 0x1_0000_0000
  }

  function Pack(hi: nat, lo: nat): nat {
    hi * 0x1_0000_0000 + lo
  }

  /** Packing loses nothing while both halves fit. */
  lemma PackParts(hi: nat, lo: nat)
    requires lo < 0x1_0000_0000
    ensures Hi(Pack(hi, lo)) == hi && Lo(Pack(hi, lo)) == lo
    ensures hi < 0x1_0000_0000 ==> Pack(hi, lo) < 0x1_0000_0000_0000_0000
  {
  }

  /** Subtracting one from the word borrows nothing from the high half while the low half is positive. */
  lemma DecrementLo(word: nat)
    requires Lo(word) > 0
    ensures word > 0 && Hi(word - 1) == Hi(word) && Lo(word - 1) == Lo(word) - 1
  {
  }
}
