/** Eight bits as a number. */
module Octets {

  lemma ByteBack(n: nat)
    requires n < 0x100
    ensures (n as bv8) as nat == n
  {
  }
}
